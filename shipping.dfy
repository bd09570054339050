// Shipping-list rules of the scheduling tool: grouping rendered `.mov`
// files into take groups and a scene list, the list text written for a
// shipping date, the title and visibility of a new calendar event, the
// choice of the list file shown for an event, and the calendar marks for
// days with events. Widget values, the folder listing and the database
// rows are parameters.

module Shipping {
  import opened Text

  function Min(a: nat, b: nat): nat { if a <= b then a else b }

  // ---------------------------------------------------------------------
  // file names

  const Mov := ".mov"

  /** `s.replace(p, "")`: the occurrences of `p` found scanning from the
    * left, without overlap, are removed. */
  function RemoveAll(s: string, p: string): (r: string)
    requires p != []
    ensures |r| <= |s|
    decreases |s|
  {
    if |s| < |p| then s
    else if s[..|p|] == p then RemoveAll(s[|p|..], p)
    else [s[0]] + RemoveAll(s[1..], p)
  }

  /** A name whose only `.mov` is its extension loses exactly the extension. */
  lemma {:induction false} MovBase(x: string)
    requires !Contains(x, Mov)
    ensures RemoveAll(x + Mov, Mov) == x
    decreases |x|
  {
    var s := x + Mov;
    if x == [] {
      assert s == Mov && s[|Mov|..] == [];
    } else {
      assert s[..4] != Mov by {
        if |x| >= 4 {
          assert s[..4] == x[..4];
        } else {
          assert s[|x|] == '.' && Mov[|x|] != '.';
        }
      }
      assert s[1..] == x[1..] + Mov;
      MovBase(x[1..]);
    }
  }

  // ---------------------------------------------------------------------
  // group keys

  /** `'TK' in word.upper()`. */
  predicate IsTakeWord(w: string) {
    Contains(Upper(w), "TK")
  }

  /** A version word such as `v002`: four characters, `v` or `V`, three digits. */
  predicate IsVersionWord(w: string) {
    |w| == 4 && LowerChar(w[0]) == 'v' && AllDigits(w[1..])
  }

  /** `f'TK{int(word[1:])}'`: `v002` becomes `TK2`. */
  function VersionKey(w: string): string
    requires IsVersionWord(w)
  {
    "TK" + NatToString(DigitsValue(w[1..]))
  }

  predicate Qualifies(w: string) {
    IsTakeWord(w) || IsVersionWord(w)
  }

  /** The key a qualifying word gives: a take word itself, else its version key. */
  function WordKey(w: string): string
    requires Qualifies(w)
  {
    if IsTakeWord(w) then w else VersionKey(w)
  }

  /** The key of the first qualifying word. */
  function KeyOfWords(ws: seq<string>): Option<string>
  {
    if ws == [] then None
    else if Qualifies(ws[0]) then Some(WordKey(ws[0]))
    else KeyOfWords(ws[1..])
  }

  /** The take group of a base name, from its `_`-separated words. */
  function GroupKey(base: string): Option<string> {
    KeyOfWords(Split(base, '_'))
  }

  /** No key exactly when no word qualifies. */
  lemma {:induction false} KeyOfWordsNone(ws: seq<string>)
    ensures KeyOfWords(ws).None? <==> forall j :: 0 <= j < |ws| ==> !Qualifies(ws[j])
  {
    if ws != [] {
      KeyOfWordsNone(ws[1..]);
      assert forall j :: 1 <= j < |ws| ==> ws[j] == ws[1..][j - 1];
    }
  }

  /** The first qualifying word decides the key, whatever follows it. */
  lemma {:induction false} KeyOfWordsFirst(ws: seq<string>, i: nat)
    requires i < |ws| && Qualifies(ws[i])
    requires forall j :: 0 <= j < i ==> !Qualifies(ws[j])
    ensures KeyOfWords(ws) == Some(WordKey(ws[i]))
  {
    if i > 0 {
      assert forall j :: 0 <= j < i - 1 ==> ws[1..][j] == ws[j + 1];
      KeyOfWordsFirst(ws[1..], i - 1);
    }
  }

  /** Every key names a take, so a key is its own key: grouping the key
    * itself lands in the same group. */
  lemma GroupKeyStable(base: string)
    requires GroupKey(base).Some?
    ensures IsTakeWord(GroupKey(base).value)
    ensures GroupKey(GroupKey(base).value) == GroupKey(base)
  {
    var ws := Split(base, '_');
    var k := GroupKey(base).value;
    var i := KeyIndex(ws);
    SplitPiecesLackSep(base, '_');
    assert '_' !in ws[i];
    if !IsTakeWord(ws[i]) {
      var d := NatToString(DigitsValue(ws[i][1..]));
      assert k == "TK" + d;
      assert Upper(k)[..2] == "TK";
      assert Contains(Upper(k), "TK");
      assert forall j :: 0 <= j < |d| ==> IsDigit(d[j]);
      assert '_' !in k by {
        forall j | 0 <= j < |k| ensures k[j] != '_' {
          if j >= 2 { assert k[j] == d[j - 2]; }
        }
      }
    }
    SplitNoSep(k, '_');
    KeyOfWordsFirst([k], 0);
  }

  /** The position of the word that gives the key. */
  lemma {:induction false} KeyIndex(ws: seq<string>) returns (i: nat)
    requires KeyOfWords(ws).Some?
    ensures i < |ws| && Qualifies(ws[i]) && KeyOfWords(ws) == Some(WordKey(ws[i]))
  {
    if Qualifies(ws[0]) {
      i := 0;
    } else {
      var k := KeyIndex(ws[1..]);
      i := k + 1;
    }
  }

  /** The word loop of `create_list`, stopping at the first qualifying word. */
  method FindGroupKey(base: string) returns (key: Option<string>)
    ensures key == GroupKey(base)
  {
    var words := Split(base, '_');
    var i := 0;
    while i < |words|
      invariant 0 <= i <= |words|
      invariant KeyOfWords(words[i..]) == GroupKey(base)
    {
      var word := words[i];
      if Contains(Upper(word), "TK") {
        return Some(word);
      } else if |word| == 4 && LowerChar(word[0]) == 'v' && AllDigits(word[1..]) {
        return Some("TK" + NatToString(DigitsValue(word[1..])));
      }
      assert words[i..][1..] == words[i + 1..];
      i := i + 1;
    }
    return None;
  }

  // ---------------------------------------------------------------------
  // grouping

  /** `.mov` names, case-sensitive, are the only ones listed. */
  predicate IsMov(content: string) {
    EndsWith(content, Mov)
  }

  function BaseOf(content: string): string {
    RemoveAll(content, Mov)
  }

  /** The take groups in first-seen key order, each group's names in
    * arrival order, and the names without a group. */
  datatype Lists = Lists(keys: seq<string>, groups: map<string, seq<string>>, scenes: seq<string>)

  function AddName(st: Lists, content: string): Lists {
    if !IsMov(content) then st
    else
      var base := BaseOf(content);
      match GroupKey(base)
      case None => st.(scenes := st.scenes + [base])
      case Some(k) =>
        if k in st.groups then st.(groups := st.groups[k := st.groups[k] + [base]])
        else st.(keys := st.keys + [k], groups := st.groups[k := [base]])
  }

  /** The lists after every name, in order. */
  function Gather(names: seq<string>): Lists
    decreases |names|
  {
    if names == [] then Lists([], map[], [])
    else AddName(Gather(names[..|names| - 1]), names[|names| - 1])
  }

  /** The folders' contents in order. */
  function Flatten(xss: seq<seq<string>>): seq<string>
    decreases |xss|
  {
    if xss == [] then [] else Flatten(xss[..|xss| - 1]) + xss[|xss| - 1]
  }

  /** The base names of the `.mov` names without a group, in order. */
  function SceneNames(names: seq<string>): seq<string>
    decreases |names|
  {
    if names == [] then []
    else
      var c := names[|names| - 1];
      SceneNames(names[..|names| - 1]) +
        (if IsMov(c) && GroupKey(BaseOf(c)).None? then [BaseOf(c)] else [])
  }

  /** The base names of the `.mov` names with key `k`, in order. */
  function GroupMembers(names: seq<string>, k: string): seq<string>
    decreases |names|
  {
    if names == [] then []
    else
      var c := names[|names| - 1];
      GroupMembers(names[..|names| - 1], k) +
        (if IsMov(c) && GroupKey(BaseOf(c)) == Some(k) then [BaseOf(c)] else [])
  }

  /** The scene list is exactly the ungrouped `.mov` names in encounter order. */
  lemma {:induction false} GatherScenes(names: seq<string>)
    ensures Gather(names).scenes == SceneNames(names)
    decreases |names|
  {
    if names != [] {
      GatherScenes(names[..|names| - 1]);
    }
  }

  /** A key has a group iff some name has that key, and the group is exactly
    * those names in encounter order; the key list names the same keys. */
  lemma {:induction false} GatherGroup(names: seq<string>, k: string)
    ensures k in Gather(names).groups <==> GroupMembers(names, k) != []
    ensures k in Gather(names).groups <==> k in Gather(names).keys
    ensures k in Gather(names).groups ==> Gather(names).groups[k] == GroupMembers(names, k)
    decreases |names|
  {
    if names != [] {
      var front := names[..|names| - 1];
      GatherGroup(front, k);
      var c := names[|names| - 1];
      if IsMov(c) && GroupKey(BaseOf(c)).Some? {
        GatherGroup(front, GroupKey(BaseOf(c)).value);
      }
    }
  }

  predicate Distinct(s: seq<string>) {
    forall i, j :: 0 <= i < j < |s| ==> s[i] != s[j]
  }

  /** Each key is listed once. */
  lemma {:induction false} GatherKeysDistinct(names: seq<string>)
    ensures Distinct(Gather(names).keys)
    decreases |names|
  {
    if names != [] {
      var front := names[..|names| - 1];
      GatherKeysDistinct(front);
      var c := names[|names| - 1];
      if IsMov(c) && GroupKey(BaseOf(c)).Some? {
        GatherGroup(front, GroupKey(BaseOf(c)).value);
      }
    }
  }

  lemma GatherKeysIn(names: seq<string>)
    ensures forall k :: k in Gather(names).keys ==> k in Gather(names).groups
  {
    forall k | k in Gather(names).keys ensures k in Gather(names).groups {
      GatherGroup(names, k);
    }
  }

  /** The folder loops of `create_list`. */
  method GatherFolders(folders: seq<seq<string>>) returns (st: Lists)
    ensures st == Gather(Flatten(folders))
  {
    st := Lists([], map[], []);
    for f := 0 to |folders|
      invariant st == Gather(Flatten(folders[..f]))
    {
      assert folders[..f + 1][..f] == folders[..f];
      var contents := folders[f];
      assert Flatten(folders[..f]) + contents[..0] == Flatten(folders[..f]);
      for c := 0 to |contents|
        invariant st == Gather(Flatten(folders[..f]) + contents[..c])
      {
        var done := Flatten(folders[..f]) + contents[..c];
        assert (done + [contents[c]])[..|done|] == done;
        assert Flatten(folders[..f]) + contents[..c + 1] == done + [contents[c]];
        var content := contents[c];
        if EndsWith(content, Mov) {
          var base := RemoveAll(content, Mov);
          var key := FindGroupKey(base);
          if key.None? {
            st := st.(scenes := st.scenes + [base]);
          } else if key.value in st.groups {
            st := st.(groups := st.groups[key.value := st.groups[key.value] + [base]]);
          } else {
            st := st.(keys := st.keys + [key.value], groups := st.groups[key.value := [base]]);
          }
        }
      }
      assert contents[..|contents|] == contents;
      assert Flatten(folders[..f + 1]) == Flatten(folders[..f]) + contents;
    }
    assert folders[..|folders|] == folders;
  }

  // ---------------------------------------------------------------------
  // rows of at most four names

  const RowSep := "    "

  /** One row: the names joined by four spaces, then a newline. */
  function Row(chunk: seq<string>): string {
    Join(chunk, RowSep) + "\n"
  }

  /** The chunks `items[0..4]`, `items[4..8]`, … that start before `i`. */
  function ChunksTo(items: seq<string>, i: nat): seq<seq<string>>
    requires i % 4 == 0 && (i == 0 || i - 4 < |items|)
    decreases i
  {
    if i == 0 then [] else ChunksTo(items, i - 4) + [items[i - 4..Min(i, |items|)]]
  }

  /** The least multiple of four not below `n`. */
  function RoundUp4(n: nat): (r: nat)
    ensures r % 4 == 0 && n <= r < n + 4
  {
    if n % 4 == 0 then n else n + 4 - n % 4
  }

  /** `items[i:i+4] for i in range(0, len(items), 4)`. */
  function Chunks(items: seq<string>): seq<seq<string>> {
    ChunksTo(items, RoundUp4(|items|))
  }

  function Lines(cs: seq<seq<string>>): string
    decreases |cs|
  {
    if cs == [] then "" else Lines(cs[..|cs| - 1]) + Row(cs[|cs| - 1])
  }

  function Rows(items: seq<string>): string {
    Lines(Chunks(items))
  }

  function Concat(cs: seq<seq<string>>): seq<string>
    decreases |cs|
  {
    if cs == [] then [] else Concat(cs[..|cs| - 1]) + cs[|cs| - 1]
  }

  /** Chunk `j` holds names `4j` up to `4j + 4`, or to the end. */
  lemma {:induction false} ChunkAt(items: seq<string>, i: nat, j: nat)
    requires i % 4 == 0 && (i == 0 || i - 4 < |items|)
    requires j < i / 4
    ensures |ChunksTo(items, i)| == i / 4
    ensures ChunksTo(items, i)[j] == items[4 * j..Min(4 * j + 4, |items|)]
    decreases i
  {
    if j < (i - 4) / 4 {
      ChunkAt(items, i - 4, j);
    } else if i > 4 {
      ChunkCount(items, i - 4);
    }
  }

  lemma {:induction false} ChunkCount(items: seq<string>, i: nat)
    requires i % 4 == 0 && (i == 0 || i - 4 < |items|)
    ensures |ChunksTo(items, i)| == i / 4
    decreases i
  {
    if i > 0 {
      ChunkCount(items, i - 4);
    }
  }

  /** The chunks put back together are the names up to `i`. */
  lemma {:induction false} ChunksConcat(items: seq<string>, i: nat)
    requires i % 4 == 0 && (i == 0 || i - 4 < |items|)
    ensures Concat(ChunksTo(items, i)) == items[..Min(i, |items|)]
    decreases i
  {
    if i > 0 {
      ChunksConcat(items, i - 4);
      var cs := ChunksTo(items, i);
      assert cs[..|cs| - 1] == ChunksTo(items, i - 4);
      assert items[..i - 4] + items[i - 4..Min(i, |items|)] == items[..Min(i, |items|)];
    }
  }

  /** Every row holds one to four names, every row but the last exactly
    * four, and the rows in order hold all the names in order. */
  lemma RowsSpec(items: seq<string>, j: nat)
    ensures Concat(Chunks(items)) == items
    ensures j < |Chunks(items)| ==> 1 <= |Chunks(items)[j]| <= 4
    ensures j + 1 < |Chunks(items)| ==> |Chunks(items)[j]| == 4
  {
    var n := RoundUp4(|items|);
    ChunksConcat(items, n);
    assert items[..Min(n, |items|)] == items;
    ChunkCount(items, n);
    if j < |Chunks(items)| {
      ChunkAt(items, n, j);
    }
  }

  /** The row loop of `create_list`. */
  method AppendRows(text0: string, items: seq<string>) returns (text: string)
    ensures text == text0 + Rows(items)
  {
    text := text0;
    var i := 0;
    while i < |items|
      invariant i % 4 == 0 && (i == 0 || i - 4 < |items|)
      invariant text == text0 + Lines(ChunksTo(items, i))
    {
      var chunk := items[i..Min(i + 4, |items|)];
      RowsStep(items, i);
      AppendRow(text0, Lines(ChunksTo(items, i)), Row(chunk), text);
      text := text + Row(chunk);
      i := i + 4;
    }
    RowsDone(items, i);
  }

  /** The rows up to chunk `i` and the row of that chunk are the rows up to the next one. */
  lemma RowsStep(items: seq<string>, i: nat)
    requires i % 4 == 0 && i < |items|
    ensures Lines(ChunksTo(items, i + 4)) == Lines(ChunksTo(items, i)) + Row(items[i..Min(i + 4, |items|)])
  {
    var cs := ChunksTo(items, i + 4);
    assert cs == ChunksTo(items, i) + [items[i..Min(i + 4, |items|)]];
    assert cs[..|cs| - 1] == ChunksTo(items, i);
  }

  lemma AppendRow(text0: string, lines: string, row: string, text: string)
    requires text == text0 + lines
    ensures text + row == text0 + (lines + row)
  {
  }

  lemma RowsDone(items: seq<string>, i: nat)
    requires i % 4 == 0 && (i == 0 || i - 4 < |items|) && i >= |items|
    ensures Lines(ChunksTo(items, i)) == Rows(items)
  {
    assert i == RoundUp4(|items|);
  }

  // ---------------------------------------------------------------------
  // the list text

  /** One block of the list: a title and its names. */
  datatype Section = Section(title: string, items: seq<string>)

  /** One section per key, in the given order, with the key's names sorted. */
  function SectionsOf(keys: seq<string>, groups: map<string, seq<string>>): (secs: seq<Section>)
    requires forall i :: 0 <= i < |keys| ==> keys[i] in groups
    ensures |secs| == |keys|
  {
    seq(|keys|, i requires 0 <= i < |keys| => Section(keys[i], SortStrings(groups[keys[i]])))
  }

  lemma SectionsOfAt(keys: seq<string>, groups: map<string, seq<string>>, i: nat)
    requires forall i :: 0 <= i < |keys| ==> keys[i] in groups
    requires i < |keys|
    ensures SectionsOf(keys, groups)[i] == Section(keys[i], SortStrings(groups[keys[i]]))
  {
  }

  /** The take sections: keys in sorted order, each with its names sorted. */
  function TakeSections(st: Lists): (secs: seq<Section>)
    requires forall k :: k in st.keys ==> k in st.groups
    ensures |secs| == |st.keys|
  {
    var ks := SortStrings(st.keys);
    assert forall i :: 0 <= i < |ks| ==> ks[i] in multiset(st.keys);
    SectionsOf(ks, st.groups)
  }

  /** `=== TK2 목록 (3개) ===`, the rows, and an empty line. */
  function SectionText(sec: Section): string {
    if sec.items == [] then ""
    else "=== " + sec.title + " 목록 (" + NatToString(|sec.items|) + "개) ===\n" + Rows(sec.items) + "\n"
  }

  function SectionsText(secs: seq<Section>): string
    decreases |secs|
  {
    if secs == [] then "" else SectionsText(secs[..|secs| - 1]) + SectionText(secs[|secs| - 1])
  }

  /** `=== Scene 목록 (n개) ===` and the rows, with no empty line after. */
  function ScenesText(scenes: seq<string>): string {
    if scenes == [] then ""
    else "=== Scene 목록 (" + NatToString(|scenes|) + "개) ===\n" + Rows(scenes)
  }

  /** The shipping date: the selected one, else today's. */
  function ShipDate(selected: string, today: string): string {
    if selected != "" then selected else today
  }

  /** The four header lines and an empty line. */
  function Header(env: string, jobs: string, retake: bool, date: string): string {
    "environments: " + env + "\n" +
    "jobs: " + jobs + "\n" +
    "episode_type: " + (if retake then "Retake" else "본편") + "\n" +
    "선적 날짜: " + date + "\n\n"
  }

  /** `create_list`: nothing without folders; else the header, the take
    * sections and the scene list. */
  function ListText(folders: seq<seq<string>>, header: string): Option<string> {
    if folders == [] then None
    else
      var st := Gather(Flatten(folders));
      GatherKeysIn(Flatten(folders));
      Some(header + SectionsText(TakeSections(st)) + ScenesText(st.scenes))
  }

  /** Sections come in strictly increasing key order. */
  lemma SectionsOrdered(names: seq<string>, i: nat, j: nat)
    requires forall k :: k in Gather(names).keys ==> k in Gather(names).groups
    requires i < j < |TakeSections(Gather(names))|
    ensures LexLe(TakeSections(Gather(names))[i].title, TakeSections(Gather(names))[j].title)
    ensures TakeSections(Gather(names))[i].title != TakeSections(Gather(names))[j].title
  {
    var keys := Gather(names).keys;
    var ks := SortStrings(keys);
    GatherKeysDistinct(names);
    if ks[i] == ks[j] {
      TwoCount(ks, i, j);
      DistinctCount(keys, ks[i]);
      assert false;
    }
  }

  lemma {:induction false} DistinctCount(s: seq<string>, x: string)
    requires Distinct(s)
    ensures multiset(s)[x] <= 1
    decreases |s|
  {
    if s != [] {
      var front := s[..|s| - 1];
      assert s == front + [s[|s| - 1]];
      DistinctCount(front, x);
      if x == s[|s| - 1] {
        assert x !in front;
      }
    }
  }

  lemma TwoCount(s: seq<string>, i: nat, j: nat)
    requires i < j < |s| && s[i] == s[j]
    ensures multiset(s)[s[i]] >= 2
  {
    assert s == s[..j] + [s[j]] + s[j + 1..];
    assert s[i] in s[..j];
  }

  /** Each section lists exactly the names of its key, sorted, and is
    * never empty. */
  lemma SectionItems(names: seq<string>, i: nat)
    requires forall k :: k in Gather(names).keys ==> k in Gather(names).groups
    requires i < |TakeSections(Gather(names))|
    ensures var sec := TakeSections(Gather(names))[i];
      sec.items != [] && SortedStrings(sec.items) &&
      multiset(sec.items) == multiset(GroupMembers(names, sec.title))
  {
    var st := Gather(names);
    var ks := SortStrings(st.keys);
    assert ks[i] in multiset(st.keys);
    GatherGroup(names, ks[i]);
  }

  /** Every name with a key is listed under a section. */
  lemma SectionFor(names: seq<string>, k: string) returns (i: nat)
    requires forall k :: k in Gather(names).keys ==> k in Gather(names).groups
    requires GroupMembers(names, k) != []
    ensures i < |TakeSections(Gather(names))| && TakeSections(Gather(names))[i].title == k
  {
    GatherGroup(names, k);
    var keys := Gather(names).keys;
    var ks := SortStrings(keys);
    assert k in multiset(keys);
    assert k in multiset(ks);
    var m :| 0 <= m < |ks| && ks[m] == k;
    i := m;
  }

  /** One pass of the key loop: a non-empty group's heading, rows and gap. */
  method AppendSection(text0: string, key: string, items: seq<string>) returns (text: string)
    ensures text == text0 + SectionText(Section(key, items))
  {
    text := text0;
    if items != [] {
      var head := "=== " + key + " 목록 (" + NatToString(|items|) + "개) ===\n";
      text := AppendRows(text + head, items);
      text := text + "\n";
      assert text == text0 + (head + Rows(items) + "\n");
    }
  }

  /** The scene block of `create_list`. */
  method AppendScenes(text0: string, scenes: seq<string>) returns (text: string)
    ensures text == text0 + ScenesText(scenes)
  {
    text := text0;
    if scenes != [] {
      var head := "=== Scene 목록 (" + NatToString(|scenes|) + "개) ===\n";
      text := AppendRows(text + head, scenes);
    }
  }

  lemma AppendAssoc(a: string, b: string, c: string)
    ensures (a + b) + c == a + (b + c)
  {
  }

  lemma SectionsTextSnoc(secs: seq<Section>, i: nat)
    requires i < |secs|
    ensures SectionsText(secs[..i + 1]) == SectionsText(secs[..i]) + SectionText(secs[i])
  {
    assert secs[..i + 1][..i] == secs[..i];
  }

  /** The key loop of `create_list`, over the sorted keys. */
  method AppendSections(text0: string, keys: seq<string>, groups: map<string, seq<string>>)
    returns (text: string)
    requires forall i :: 0 <= i < |keys| ==> keys[i] in groups
    ensures text == text0 + SectionsText(SectionsOf(keys, groups))
  {
    ghost var secs := SectionsOf(keys, groups);
    text := text0;
    for i := 0 to |keys|
      invariant text == text0 + SectionsText(secs[..i])
    {
      var items := SortStrings(groups[keys[i]]);
      SectionsOfAt(keys, groups, i);
      ghost var before := SectionsText(secs[..i]);
      text := AppendSection(text, keys[i], items);
      SectionsTextSnoc(secs, i);
      AppendAssoc(text0, before, SectionText(secs[i]));
    }
    assert secs[..|keys|] == secs;
  }

  /**
   * `create_list`: `env` and `jobs` are the environment combo's and the
   * jobs field's texts, `retake` the retake radio button, `selected` the
   * selected date ("" when none) and `today` the current date.
   */
  method CreateList(folders: seq<seq<string>>, env: string, jobs: string, retake: bool,
                    selected: string, today: string) returns (text: Option<string>)
    ensures text == ListText(folders, Header(env, jobs, retake, ShipDate(selected, today)))
  {
    if folders == [] {
      return None;
    }
    var header := Header(env, jobs, retake, if selected != "" then selected else today);
    var st := GatherFolders(folders);
    GatherKeysIn(Flatten(folders));
    var keys := SortStrings(st.keys);
    assert forall i :: 0 <= i < |keys| ==> keys[i] in multiset(st.keys);
    var out := AppendSections(header, keys, st.groups);
    out := AppendScenes(out, st.scenes);
    return Some(out);
  }

  // ---------------------------------------------------------------------
  // new calendar events

  /** `[본편]`, `[ReTake]` or nothing; the 본편 box wins when both are ticked. */
  function TypeTag(mainChecked: bool, retakeChecked: bool): string {
    if mainChecked then "[본편]" else if retakeChecked then "[ReTake]" else ""
  }

  /** The event title: the typed title verbatim in manual mode, else
    * `[program] prefix+number type`. */
  function EventTitle(manual: bool, typed: string, program: string, prefix: string, number: string,
                      mainChecked: bool, retakeChecked: bool): string
  {
    if manual then typed
    else "[" + program + "] " + prefix + number + " " + TypeTag(mainChecked, retakeChecked)
  }

  /** A department check box. */
  datatype Dept = Dept(name: string, checked: bool)

  /** The ticked departments' names, in box order. */
  function CheckedNames(depts: seq<Dept>): seq<string>
    decreases |depts|
  {
    if depts == [] then []
    else
      var d := depts[|depts| - 1];
      CheckedNames(depts[..|depts| - 1]) + (if d.checked then [d.name] else [])
  }

  /** `private` when the private box or no department is ticked, else the
    * ticked departments joined by commas. */
  function Visibility(privateChecked: bool, depts: seq<Dept>): string {
    var names := CheckedNames(depts);
    if privateChecked || names == [] then "private" else Join(names, ",")
  }

  /** The dialog's inputs. */
  datatype EventForm = EventForm(
    manual: bool, typedTitle: string, program: string, prefix: string, number: string,
    mainChecked: bool, retakeChecked: bool, privateChecked: bool, depts: seq<Dept>,
    description: string, date: string)

  /** What `get_event_data` returns. */
  datatype EventData = EventData(title: string, description: string, date: string, visibility: string)

  function GetEventData(f: EventForm): EventData {
    EventData(
      EventTitle(f.manual, f.typedTitle, f.program, f.prefix, f.number, f.mainChecked, f.retakeChecked),
      f.description, f.date, Visibility(f.privateChecked, f.depts))
  }

  predicate NoComma(names: seq<string>) {
    forall i :: 0 <= i < |names| ==> ',' !in names[i]
  }

  /** Splitting a comma-joined list of comma-free names gives the names back. */
  lemma {:induction false} JoinThenSplit(names: seq<string>)
    requires names != [] && NoComma(names)
    ensures Split(Join(names, ","), ',') == names
    decreases |names|
  {
    if |names| == 1 {
      SplitNoSep(names[0], ',');
    } else {
      var rest := names[1..];
      assert NoComma(rest) by {
        forall i | 0 <= i < |rest| ensures ',' !in rest[i] { assert rest[i] == names[i + 1]; }
      }
      JoinThenSplit(rest);
      assert ',' !in names[0];
      JoinThenSplitStep(names);
    }
  }

  lemma JoinThenSplitStep(names: seq<string>)
    requires |names| >= 2 && ',' !in names[0]
    requires Split(Join(names[1..], ","), ',') == names[1..]
    ensures Split(Join(names, ","), ',') == names
  {
    var rest := names[1..];
    SplitAppend(names[0], ',', Join(rest, ","));
    assert Join(names, ",") == names[0] + [','] + Join(rest, ",");
    assert names == [names[0]] + rest;
  }

  /** The visibility is `private` exactly in the private cases; otherwise it
    * reads back as the ticked departments in order. */
  lemma VisibilitySpec(privateChecked: bool, depts: seq<Dept>)
    ensures privateChecked || CheckedNames(depts) == [] ==> Visibility(privateChecked, depts) == "private"
    ensures !privateChecked && CheckedNames(depts) != [] && NoComma(CheckedNames(depts)) ==>
      Split(Visibility(privateChecked, depts), ',') == CheckedNames(depts)
  {
    if !privateChecked && CheckedNames(depts) != [] && NoComma(CheckedNames(depts)) {
      JoinThenSplit(CheckedNames(depts));
    }
  }

  /** A department is listed iff its box is ticked. */
  lemma {:induction false} CheckedNamesSpec(depts: seq<Dept>, x: string)
    ensures x in CheckedNames(depts) <==> exists i :: 0 <= i < |depts| && depts[i].name == x && depts[i].checked
    decreases |depts|
  {
    if depts != [] {
      var front := depts[..|depts| - 1];
      CheckedNamesSpec(front, x);
      if x in CheckedNames(front) {
        var i :| 0 <= i < |front| && front[i].name == x && front[i].checked;
        assert depts[i] == front[i];
      }
      if exists i :: 0 <= i < |depts| && depts[i].name == x && depts[i].checked {
        var i :| 0 <= i < |depts| && depts[i].name == x && depts[i].checked;
        if i < |front| {
          assert front[i] == depts[i];
        }
      }
    }
  }

  // ---------------------------------------------------------------------
  // finding the list file of an event

  /** `s.replace(c, '')`. */
  function Without(s: string, c: char): (r: string)
    ensures c !in r
    decreases |s|
  {
    if s == [] then [] else (if s[0] == c then [] else [s[0]]) + Without(s[1..], c)
  }

  lemma {:induction false} WithoutAppend(a: string, b: string, c: char)
    ensures Without(a + b, c) == Without(a, c) + Without(b, c)
    decreases |a|
  {
    if a != [] {
      assert (a + b)[1..] == a[1..] + b;
      WithoutAppend(a[1..], b, c);
    } else {
      assert a + b == b;
    }
  }

  lemma {:induction false} WithoutAbsent(s: string, c: char)
    requires c !in s
    ensures Without(s, c) == s
    decreases |s|
  {
    if s != [] {
      assert s[0] in s;
      WithoutAbsent(s[1..], c);
    }
  }

  /** The title with its brackets removed. */
  function Unbracketed(title: string): string {
    Without(Without(title, '['), ']')
  }

  lemma UnbracketedAppend(a: string, b: string)
    ensures Unbracketed(a + b) == Unbracketed(a) + Unbracketed(b)
  {
    WithoutAppend(a, b, '[');
    WithoutAppend(Without(a, '['), Without(b, '['), ']');
  }

  /** `TGN-5LBW05` from `[TGN] 5LBW05 ReTake`: the first two words of the
    * title without brackets, joined by `-`; none with fewer than two. */
  function EnvName(title: string): Option<string> {
    var parts := Words(Unbracketed(title));
    if |parts| >= 2 then Some(parts[0] + "-" + parts[1]) else None
  }

  predicate IsRetakeTitle(title: string) {
    Contains(title, "ReTake")
  }

  /** The lower-cased file name mentions `tk` or `take`. */
  predicate HasTake(name: string) {
    Contains(Lower(name), "tk") || Contains(Lower(name), "take")
  }

  /** Retake events show only take lists; other events skip take lists
    * unless they mention `tk1`. */
  predicate KindMatches(retake: bool, name: string) {
    if retake then HasTake(name) else !HasTake(name) || Contains(Lower(name), "tk1")
  }

  /** The filter of `open_list_file` for one file of a list directory. */
  predicate ListFileMatches(title: string, date: string, name: string) {
    EnvName(title).Some? && Contains(name, date) && Contains(name, EnvName(title).value) &&
    KindMatches(IsRetakeTitle(title), name)
  }

  /** The first matching file of the listing (the existing list directories'
    * entries in order). */
  function FindListFile(title: string, date: string, listing: seq<string>): Option<string>
    decreases |listing|
  {
    if listing == [] then None
    else if ListFileMatches(title, date, listing[0]) then Some(listing[0])
    else FindListFile(title, date, listing[1..])
  }

  /** Nothing is shown exactly when no file matches. */
  lemma {:induction false} FindListFileNone(title: string, date: string, listing: seq<string>)
    ensures FindListFile(title, date, listing).None? <==>
      forall i :: 0 <= i < |listing| ==> !ListFileMatches(title, date, listing[i])
    decreases |listing|
  {
    if listing != [] {
      FindListFileNone(title, date, listing[1..]);
      assert forall i :: 1 <= i < |listing| ==> listing[i] == listing[1..][i - 1];
    }
  }

  /** The file shown is the first matching one. */
  lemma {:induction false} FindListFileFirst(title: string, date: string, listing: seq<string>) returns (i: nat)
    requires FindListFile(title, date, listing).Some?
    ensures i < |listing| && listing[i] == FindListFile(title, date, listing).value
    ensures ListFileMatches(title, date, listing[i])
    ensures forall j :: 0 <= j < i ==> !ListFileMatches(title, date, listing[j])
    decreases |listing|
  {
    if ListFileMatches(title, date, listing[0]) {
      i := 0;
    } else {
      var k := FindListFileFirst(title, date, listing[1..]);
      i := k + 1;
      assert forall j :: 1 <= j < i ==> listing[j] == listing[1..][j - 1];
    }
  }

  /** The name `save_file` gives the list: `env-jobs-date.txt`. */
  function ListFileName(env: string, jobs: string, date: string): string {
    env + "-" + jobs + "-" + date + ".txt"
  }

  /** A title word: non-empty, without whitespace or brackets. */
  predicate Plain(w: string) {
    w != [] && forall i :: 0 <= i < |w| ==> !IsSpace(w[i]) && w[i] != '[' && w[i] != ']'
  }

  lemma UnbracketedPlain(w: string)
    requires Plain(w)
    ensures Unbracketed(w) == w
  {
    WithoutAbsent(w, '[');
    WithoutAbsent(w, ']');
  }

  lemma UnbracketedTitle(program: string, code: string, tag: string)
    requires Plain(program) && Plain(code)
    ensures Unbracketed("[" + (program + ("] " + (code + (" " + tag))))) ==
      program + (" " + (code + (" " + Unbracketed(tag))))
  {
    UnbracketedAppend("[", program + ("] " + (code + (" " + tag))));
    UnbracketedAppend(program, "] " + (code + (" " + tag)));
    UnbracketedAppend("] ", code + (" " + tag));
    UnbracketedAppend(code, " " + tag);
    UnbracketedAppend(" ", tag);
    UnbracketedPlain(program);
    UnbracketedPlain(code);
    assert Unbracketed("[") == [];
    assert Unbracketed("] ") == " ";
    assert Unbracketed(" ") == " ";
  }

  lemma FirstTwoWords(a: string, b: string, t: string)
    requires Plain(a) && Plain(b)
    ensures |Words(a + (" " + (b + (" " + t))))| >= 2
    ensures Words(a + (" " + (b + (" " + t))))[0] == a
    ensures Words(a + (" " + (b + (" " + t))))[1] == b
  {
    WordsCons(a, " " + (b + (" " + t)));
    WordsSkip(' ', b + (" " + t));
    WordsCons(b, " " + t);
  }

  /** A generated title gives back the environment `program-prefixnumber`. */
  lemma GeneratedEnvName(program: string, prefix: string, number: string, mainChecked: bool, retakeChecked: bool)
    requires Plain(program) && Plain(prefix + number)
    ensures EnvName(EventTitle(false, "", program, prefix, number, mainChecked, retakeChecked)) ==
      Some(program + "-" + (prefix + number))
  {
    var code := prefix + number;
    var tag := TypeTag(mainChecked, retakeChecked);
    var title := EventTitle(false, "", program, prefix, number, mainChecked, retakeChecked);
    assert title == "[" + (program + ("] " + (code + (" " + tag))));
    UnbracketedTitle(program, code, tag);
    FirstTwoWords(program, code, Unbracketed(tag));
  }

  /** A retake-only title is recognised as a retake. */
  lemma RetakeTitle(program: string, prefix: string, number: string)
    ensures IsRetakeTitle(EventTitle(false, "", program, prefix, number, false, true))
  {
    var pre := "[" + program + "] " + prefix + number + " [";
    assert EventTitle(false, "", program, prefix, number, false, true) == pre + ("ReTake" + "]");
    ContainsPrefix("ReTake", "ReTake", "]");
    ContainsShift(pre, "ReTake" + "]", "ReTake");
  }

  /** The list saved for a generated event's environment and date always
    * passes the name test; whether it is shown rests on the take rule
    * alone. So a retake event finds its list only if the list's name
    * mentions `tk` or `take`. */
  lemma SavedListMatches(program: string, prefix: string, number: string,
                         mainChecked: bool, retakeChecked: bool, date: string)
    requires Plain(program) && Plain(prefix + number)
    ensures var title := EventTitle(false, "", program, prefix, number, mainChecked, retakeChecked);
      var name := ListFileName(program, prefix + number, date);
      ListFileMatches(title, date, name) <==> KindMatches(IsRetakeTitle(title), name)
  {
    var code := prefix + number;
    GeneratedEnvName(program, prefix, number, mainChecked, retakeChecked);
    var env := program + "-" + code;
    var name := ListFileName(program, code, date);
    assert name == env + ("-" + date + ".txt");
    ContainsPrefix(env, env, "-" + date + ".txt");
    assert name == (env + "-") + (date + ".txt");
    ContainsPrefix(date, date, ".txt");
    ContainsShift(env + "-", date + ".txt", date);
  }

  // ---------------------------------------------------------------------
  // calendar marks

  /** A row of the per-date query: events in total and completed ones. */
  datatype DayCount = DayCount(date: string, total: int, completed: int)

  /** Dates with at least one event. */
  function EventDates(rows: seq<DayCount>): set<string>
    decreases |rows|
  {
    if rows == [] then {}
    else
      var r := rows[|rows| - 1];
      EventDates(rows[..|rows| - 1]) + (if r.total > 0 then {r.date} else {})
  }

  /** Dates whose events are all completed, and which have some. */
  function CompletedDates(rows: seq<DayCount>): set<string>
    decreases |rows|
  {
    if rows == [] then {}
    else
      var r := rows[|rows| - 1];
      CompletedDates(rows[..|rows| - 1]) + (if r.total == r.completed && r.total > 0 then {r.date} else {})
  }

  /** A date is marked iff one of its rows has events; it is marked done
    * iff one of its rows has all its events completed. */
  lemma {:induction false} MarksSpec(rows: seq<DayCount>, x: string)
    ensures x in EventDates(rows) <==> exists i :: 0 <= i < |rows| && rows[i].date == x && rows[i].total > 0
    ensures x in CompletedDates(rows) <==>
      exists i :: 0 <= i < |rows| && rows[i].date == x && rows[i].total == rows[i].completed && rows[i].total > 0
    decreases |rows|
  {
    if rows != [] {
      var front := rows[..|rows| - 1];
      MarksSpec(front, x);
      assert forall i :: 0 <= i < |front| ==> front[i] == rows[i];
    }
  }

  /** Every date marked done is marked as having events. */
  lemma {:induction false} CompletedHaveEvents(rows: seq<DayCount>)
    ensures CompletedDates(rows) <= EventDates(rows)
    decreases |rows|
  {
    if rows != [] {
      CompletedHaveEvents(rows[..|rows| - 1]);
    }
  }

  /** The row loop of `update_calendar_events`. */
  method MarkDates(rows: seq<DayCount>) returns (withEvents: set<string>, completed: set<string>)
    ensures withEvents == EventDates(rows) && completed == CompletedDates(rows)
  {
    withEvents, completed := {}, {};
    for i := 0 to |rows|
      invariant withEvents == EventDates(rows[..i]) && completed == CompletedDates(rows[..i])
    {
      assert rows[..i + 1][..i] == rows[..i];
      var r := rows[i];
      if r.total > 0 {
        withEvents := withEvents + {r.date};
      }
      if r.total == r.completed && r.total > 0 {
        completed := completed + {r.date};
      }
    }
    assert rows[..|rows|] == rows;
  }
}
