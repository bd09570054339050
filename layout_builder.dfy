/**
 * The layout builder's element pipeline: the style presets and user
 * settings merged into the theme object `C`, the auto-polish level and
 * profile, the text-heavy test, the auto-polish rewrite of the element
 * sequence, the page margins and the split of the elements between the
 * one-column and the two-column section.
 *
 * JavaScript values are modelled by `JsValue`; objects by maps from keys
 * to values, a missing key reading as `undefined`.
 */
module LayoutBuilder {
  import opened Text

  datatype JsValue = Undefined | Null | Bool(b: bool) | Num(n: int) | NaN | Str(s: string)

  type Obj = map<string, JsValue>

  /** JavaScript truthiness. */
  predicate Truthy(v: JsValue) {
    match v
    case Undefined => false
    case Null => false
    case NaN => false
    case Bool(b) => b
    case Num(n) => n != 0
    case Str(s) => s != ""
  }

  /** `a || b`. */
  function Or(a: JsValue, b: JsValue): (r: JsValue)
    ensures Truthy(b) ==> Truthy(r)
  {
    if Truthy(a) then a else b
  }

  /** `String(v)`. */
  function ToStr(v: JsValue): string {
    match v
    case Undefined => "undefined"
    case Null => "null"
    case NaN => "NaN"
    case Bool(b) => if b then "true" else "false"
    case Num(n) => IntToString(n)
    case Str(s) => s
  }

  /** `o.key`. */
  function Get(o: Obj, key: string): JsValue {
    if key in o then o[key] else Undefined
  }

  /** An entry of the element array: an object, or anything else. */
  datatype Element = Object(fields: Obj) | Primitive(value: JsValue)

  predicate TypeIs(el: Element, t: string) {
    el.Object? && Get(el.fields, "type") == Str(t)
  }

  /** `(el.text || "")` as a string. */
  function TextOf(el: Element): string
    requires el.Object?
  {
    var v := Get(el.fields, "text");
    if v.Str? then v.s else ""
  }

  // ---------------------------------------------------------------------
  // auto-polish level and profile

  datatype Level = Off | Weak | Normal | Strong

  function LevelName(l: Level): string {
    match l
    case Off => "off"
    case Weak => "weak"
    case Normal => "normal"
    case Strong => "strong"
  }

  /** `resolveAutoPolishLevel`: the lower-cased setting, or `normal` when it names no level. */
  function ResolveLevel(settings: Obj): (l: Level)
    ensures l != Normal ==> Lower(ToStr(Or(Get(settings, "auto_polish_level"), Str("normal")))) == LevelName(l)
  {
    var raw := Lower(ToStr(Or(Get(settings, "auto_polish_level"), Str("normal"))));
    if raw == "off" then Off
    else if raw == "weak" then Weak
    else if raw == "strong" then Strong
    else Normal
  }

  /** `isAutoPolishEnabled`. */
  predicate Enabled(settings: Obj) {
    var v := Get(settings, "auto_polish");
    if v == Bool(false) || v == Str("false") then false
    else ResolveLevel(settings) != Off
  }

  /** Naming a level, in any letter case, selects that level. */
  lemma ResolveLevelRoundTrip(settings: Obj, l: Level, name: string)
    requires Lower(name) == LevelName(l)
    requires Get(settings, "auto_polish_level") == Str(name)
    ensures ResolveLevel(settings) == l
  {
  }

  /** Without a level setting the level is `normal` and polishing is on unless switched off. */
  lemma DefaultLevel(settings: Obj)
    requires !Truthy(Get(settings, "auto_polish_level"))
    ensures ResolveLevel(settings) == Normal
    ensures Enabled(settings) <==> Get(settings, "auto_polish") != Bool(false) && Get(settings, "auto_polish") != Str("false")
  {
    assert Lower("normal") == "normal";
  }

  /** Polishing is off exactly when `auto_polish` is `false` or `"false"`, or the level is `off`. */
  lemma EnabledIff(settings: Obj)
    ensures !Enabled(settings) <==>
      Get(settings, "auto_polish") == Bool(false) || Get(settings, "auto_polish") == Str("false") ||
      Lower(ToStr(Or(Get(settings, "auto_polish_level"), Str("normal")))) == "off"
  {
  }

  /** The thresholds of one auto-polish profile; ratios are in hundredths. */
  datatype Profile = Profile(minElements: nat, textRatioPct: nat, heavyRatioPct: nat, splitMinChars: nat,
                             leadMinChars: nat, firstChunkChars: nat, insertDividerFromNthH1: nat)

  /** `_AUTO_POLISH_PROFILES[level] || _AUTO_POLISH_PROFILES.normal`. */
  function ProfileOf(l: Level): (p: Profile)
    ensures p.minElements > 0 && p.firstChunkChars > 0 && p.leadMinChars < p.splitMinChars
  {
    match l
    case Weak => Profile(8, 80, 12, 680, 110, 280, 2)
    case Strong => Profile(5, 65, 24, 380, 45, 170, 1)
    case _ => Profile(6, 72, 18, 520, 70, 220, 1)
  }

  // ---------------------------------------------------------------------
  // splitting a long body text

  /** `filter(Boolean)`: the non-empty strings. */
  function NonEmpty(s: seq<string>): (r: seq<string>)
    ensures |r| <= |s| && forall i :: 0 <= i < |r| ==> r[i] != ""
  {
    if s == [] then []
    else NonEmpty(s[..|s| - 1]) + if s[|s| - 1] != "" then [s[|s| - 1]] else []
  }

  datatype Chunk = Chunk(text: string, taken: nat)

  /** The sentence-gathering loop: sentences from `idx` on are added while the chunk is short. */
  function Gather(s: seq<string>, limit: nat, first: string, idx: nat): (c: Chunk)
    requires idx <= |s|
    ensures idx <= c.taken <= |s|
    decreases |s| - idx
  {
    if idx < |s| && |first| < limit then Gather(s, limit, first + (if first != "" then " " else "") + s[idx], idx + 1)
    else Chunk(first, idx)
  }

  datatype Halves = Halves(first: string, second: string)

  /**
   * `splitLongBodyText`; `sentencesOf` stands for the split at whitespace
   * after a sentence end (`.`, `!`, `?` and their full-width forms).
   */
  function SplitText(text: string, p: Profile, sentencesOf: string -> seq<string>): Halves {
    var src := Strip(text);
    if src == "" then Halves("", "")
    else if |src| < p.splitMinChars then Halves(src, "")
    else
      var s := NonEmpty(sentencesOf(src));
      if |s| < 2 then Halves(Strip(src[..|src| / 2]), Strip(src[|src| / 2..]))
      else
        var c := Gather(s, p.firstChunkChars, "", 0);
        Halves(Strip(c.text), Strip(Join(s[c.taken..], " ")))
  }

  /** `splitLongBodyText` with its loop. */
  method SplitLongBodyText(text: string, p: Profile, sentencesOf: string -> seq<string>)
    returns (first: string, second: string)
    ensures Halves(first, second) == SplitText(text, p, sentencesOf)
  {
    var src := Strip(text);
    if src == "" {
      return "", "";
    }
    if |src| < p.splitMinChars {
      return src, "";
    }
    var s := NonEmpty(sentencesOf(src));
    if |s| < 2 {
      var mid := |src| / 2;
      return Strip(src[..mid]), Strip(src[mid..]);
    }
    var chunk := "";
    var idx := 0;
    while idx < |s| && |chunk| < p.firstChunkChars
      invariant 0 <= idx <= |s|
      invariant Gather(s, p.firstChunkChars, chunk, idx) == Gather(s, p.firstChunkChars, "", 0)
      decreases |s| - idx
    {
      chunk := chunk + (if chunk != "" then " " else "") + s[idx];
      idx := idx + 1;
    }
    first := Strip(chunk);
    second := Strip(Join(s[idx..], " "));
  }

  /** Joining at a cut point: the two joins with one separator between them give the whole join. */
  lemma {:induction false} JoinCut(s: seq<string>, i: nat, sep: string)
    requires 0 < i < |s|
    ensures Join(s[..i], sep) + sep + Join(s[i..], sep) == Join(s, sep)
    decreases i
  {
    if i == 1 {
      assert s[..1] == [s[0]];
      assert s[1..] == s[i..];
    } else {
      JoinCut(s[1..], i - 1, sep);
      assert s[1..][..i - 1] == s[..i][1..];
      assert s[1..][i - 1..] == s[i..];
    }
  }

  lemma JoinSnoc(s: seq<string>, x: string, sep: string)
    requires s != []
    ensures Join(s + [x], sep) == Join(s, sep) + sep + x
  {
    JoinCut(s + [x], |s|, sep);
    assert (s + [x])[..|s|] == s;
    assert (s + [x])[|s|..] == [x];
  }

  /**
   * The gathered chunk is the first `taken` sentences joined by single
   * spaces; it stops at the first prefix that reaches the limit, or at the
   * end of the sentences.
   */
  lemma {:induction false} GatherSpec(s: seq<string>, limit: nat, idx: nat)
    requires idx <= |s| && forall k :: 0 <= k < |s| ==> s[k] != ""
    requires forall j :: 0 < j < idx ==> |Join(s[..j], " ")| < limit
    ensures var c := Gather(s, limit, Join(s[..idx], " "), idx);
      c.text == Join(s[..c.taken], " ") &&
      (c.taken < |s| ==> |c.text| >= limit) &&
      (forall j :: 0 < j < c.taken ==> |Join(s[..j], " ")| < limit)
    decreases |s| - idx
  {
    var first := Join(s[..idx], " ");
    if idx < |s| && |first| < limit {
      var next := first + (if first != "" then " " else "") + s[idx];
      assert s[..idx + 1] == s[..idx] + [s[idx]];
      if idx == 0 {
        assert s[..1] == [s[0]];
      } else {
        JoinSnoc(s[..idx], s[idx], " ");
        assert first != "" by {
          JoinCut(s[..idx + 1], idx, " ");
          assert s[..idx + 1][..idx] == s[..idx];
          if idx == 1 { assert s[..1] == [s[0]]; } else { JoinNonEmpty(s[..idx], " "); }
        }
      }
      assert next == Join(s[..idx + 1], " ");
      GatherSpec(s, limit, idx + 1);
    }
  }

  lemma {:induction false} JoinNonEmpty(s: seq<string>, sep: string)
    requires s != [] && s[0] != ""
    ensures Join(s, sep) != ""
  {
    if |s| > 1 {
      assert Join(s, sep)[0] == s[0][0];
    }
  }

  /**
   * A long text with at least two sentences is cut between sentences: the
   * lead is the first sentences joined, the remainder the other sentences
   * joined, and with the space between them they give back every sentence.
   */
  lemma SplitTextCut(text: string, p: Profile, sentencesOf: string -> seq<string>, s: seq<string>)
    requires Strip(text) != "" && |Strip(text)| >= p.splitMinChars
    requires s == NonEmpty(sentencesOf(Strip(text))) && |s| >= 2
    ensures var c := Gather(s, p.firstChunkChars, "", 0);
      var h := SplitText(text, p, sentencesOf);
      h.first == Strip(Join(s[..c.taken], " ")) && h.second == Strip(Join(s[c.taken..], " ")) &&
      (c.taken < |s| ==> |Join(s[..c.taken], " ")| >= p.firstChunkChars) &&
      (0 < c.taken < |s| ==> Join(s[..c.taken], " ") + " " + Join(s[c.taken..], " ") == Join(s, " "))
  {
    assert s[..0] == [];
    GatherSpec(s, p.firstChunkChars, 0);
    var c := Gather(s, p.firstChunkChars, "", 0);
    if 0 < c.taken < |s| {
      JoinCut(s, c.taken, " ");
    }
  }

  // ---------------------------------------------------------------------
  // the text-heavy test

  const TextTypes: set<string> := {"h1", "h2", "h3", "body", "quote", "bullets", "hr", "empty"}
  const HeavyTypes: set<string> := {"image", "table2", "table3", "qa", "prompt", "conclusion"}

  predicate TypeIn(el: Element, types: set<string>) {
    el.Object? && Get(el.fields, "type").Str? && Get(el.fields, "type").s in types
  }

  function CountIn(els: seq<Element>, types: set<string>): (n: nat)
    ensures n <= |els|
  {
    if els == [] then 0
    else CountIn(els[..|els| - 1], types) + if TypeIn(els[|els| - 1], types) then 1 else 0
  }

  /**
   * `isTextHeavyDocument`: enough elements, a large enough share of text
   * elements and few enough heavy ones; the ratios compared exactly.
   */
  predicate TextHeavy(els: seq<Element>, p: Profile) {
    var n := |els|;
    n >= p.minElements && n > 0 &&
    100 * CountIn(els, TextTypes) >= p.textRatioPct * n &&
    CountIn(els, HeavyTypes) <= Max(2, n * p.heavyRatioPct / 100)
  }

  function Max(a: nat, b: nat): nat { if a >= b then a else b }

  /** `isTextHeavyDocument` with its counting loop. */
  method IsTextHeavyDocument(els: seq<Element>, p: Profile) returns (heavy: bool)
    ensures heavy == TextHeavy(els, p)
  {
    if |els| < p.minElements {
      return false;
    }
    var textCount := 0;
    var heavyCount := 0;
    var i := 0;
    while i < |els|
      invariant 0 <= i <= |els|
      invariant textCount == CountIn(els[..i], TextTypes) && heavyCount == CountIn(els[..i], HeavyTypes)
    {
      CountInLast(els, i, TextTypes);
      CountInLast(els, i, HeavyTypes);
      if TypeIn(els[i], TextTypes) {
        textCount := textCount + 1;
      }
      if TypeIn(els[i], HeavyTypes) {
        heavyCount := heavyCount + 1;
      }
      i := i + 1;
    }
    assert els[..i] == els;
    heavy := |els| > 0 && 100 * textCount >= p.textRatioPct * |els| && heavyCount <= Max(2, |els| * p.heavyRatioPct / 100);
  }

  lemma CountInLast(els: seq<Element>, i: nat, types: set<string>)
    requires i < |els|
    ensures CountIn(els[..i + 1], types) == CountIn(els[..i], types) + if TypeIn(els[i], types) then 1 else 0
  {
    assert els[..i + 1][..i] == els[..i];
  }

  /** No element is both a text and a heavy element, so the two counts never exceed the length. */
  lemma {:induction false} CountsDisjoint(els: seq<Element>)
    ensures CountIn(els, TextTypes) + CountIn(els, HeavyTypes) <= |els|
  {
    if els != [] {
      CountsDisjoint(els[..|els| - 1]);
    }
  }

  /** A sequence shorter than the profile's minimum is never text-heavy. */
  lemma TextHeavyBounds(els: seq<Element>, p: Profile)
    ensures |els| < p.minElements ==> !TextHeavy(els, p)
  {
  }

  // ---------------------------------------------------------------------
  // the auto-polish rewrite

  predicate IsHeading(el: Element) {
    TypeIs(el, "h1") || TypeIs(el, "h2") || TypeIs(el, "h3")
  }

  /** The divider inserted before an h1. */
  function Divider(el: Element): Element
    requires el.Object?
  {
    Object(map["type" := Str("section_divider"), "text" := Or(Get(el.fields, "text"), Str(""))])
  }

  /** `{ ...el, type, text }` and `{ ...el, text }`. */
  function WithText(el: Element, text: string): Element
    requires el.Object?
  {
    Object(el.fields["text" := Str(text)])
  }

  function AsLead(el: Element, text: string): Element
    requires el.Object?
  {
    Object(el.fields["type" := Str("lead")]["text" := Str(text)])
  }

  function AsBody(el: Element, text: string): Element
    requires el.Object?
  {
    Object(el.fields["type" := Str("body")]["text" := Str(text)])
  }

  datatype PolishState = PolishState(out: seq<Element>, h1Count: nat, justSawHeading: bool)

  /** What a non-blank body element becomes. */
  function BodyPiece(el: Element, text: string, afterHeading: bool, p: Profile,
                     sentencesOf: string -> seq<string>): seq<Element>
    requires el.Object?
  {
    if afterHeading && |text| >= p.leadMinChars then
      var h := SplitText(text, p, sentencesOf);
      [AsLead(el, if h.first != "" then h.first else text)] + if h.second != "" then [AsBody(el, h.second)] else []
    else if |text| >= p.splitMinChars then
      var h := SplitText(text, p, sentencesOf);
      [WithText(el, if h.first != "" then h.first else text)] + if h.second != "" then [WithText(el, h.second)] else []
    else [el]
  }

  /** One round of the `autoPolishElements` loop. */
  function PolishStep(st: PolishState, el: Element, p: Profile, sentencesOf: string -> seq<string>): PolishState {
    if !el.Object? then st
    else if TypeIs(el, "h1") then
      PolishState(st.out + (if st.h1Count >= p.insertDividerFromNthH1 then [Divider(el)] else []) + [el],
                  st.h1Count + 1, true)
    else if TypeIs(el, "h2") || TypeIs(el, "h3") then PolishState(st.out + [el], st.h1Count, true)
    else if TypeIs(el, "body") then
      var text := Strip(TextOf(el));
      if text == "" then st.(justSawHeading := false)
      else PolishState(st.out + BodyPiece(el, text, st.justSawHeading, p, sentencesOf), st.h1Count, false)
    else PolishState(st.out + [el], st.h1Count, false)
  }

  function Polished(els: seq<Element>, p: Profile, sentencesOf: string -> seq<string>): PolishState {
    if els == [] then PolishState([], 0, false)
    else PolishStep(Polished(els[..|els| - 1], p, sentencesOf), els[|els| - 1], p, sentencesOf)
  }

  /** `autoPolishElements` with its loop. */
  method AutoPolishElements(els: seq<Element>, p: Profile, sentencesOf: string -> seq<string>)
    returns (polished: seq<Element>)
    ensures polished == Polished(els, p, sentencesOf).out
  {
    polished := [];
    var h1Count := 0;
    var justSawHeading := false;
    var i := 0;
    while i < |els|
      invariant 0 <= i <= |els|
      invariant Polished(els[..i], p, sentencesOf) == PolishState(polished, h1Count, justSawHeading)
    {
      assert els[..i + 1][..i] == els[..i];
      var el := els[i];
      i := i + 1;
      if !el.Object? {
        continue;
      }
      if TypeIs(el, "h1") {
        if h1Count >= p.insertDividerFromNthH1 {
          polished := polished + [Divider(el)];
        }
        polished := polished + [el];
        h1Count := h1Count + 1;
        justSawHeading := true;
        continue;
      }
      if TypeIs(el, "h2") || TypeIs(el, "h3") {
        polished := polished + [el];
        justSawHeading := true;
        continue;
      }
      if TypeIs(el, "body") {
        var text := Strip(TextOf(el));
        if text == "" {
          justSawHeading := false;
          continue;
        }
        var piece := BodyStage(el, text, justSawHeading, p, sentencesOf);
        polished := polished + piece;
        justSawHeading := false;
        continue;
      }
      polished := polished + [el];
      justSawHeading := false;
    }
    assert els[..i] == els;
  }

  /** The body branch of the loop, calling the splitter. */
  method BodyStage(el: Element, text: string, afterHeading: bool, p: Profile, sentencesOf: string -> seq<string>)
    returns (piece: seq<Element>)
    requires el.Object?
    ensures piece == BodyPiece(el, text, afterHeading, p, sentencesOf)
  {
    if afterHeading && |text| >= p.leadMinChars {
      var leadText, remainder := SplitLongBodyText(text, p, sentencesOf);
      piece := [AsLead(el, if leadText != "" then leadText else text)];
      if remainder != "" {
        piece := piece + [AsBody(el, remainder)];
      }
    } else if |text| >= p.splitMinChars {
      var firstHalf, secondHalf := SplitLongBodyText(text, p, sentencesOf);
      piece := [WithText(el, if firstHalf != "" then firstHalf else text)];
      if secondHalf != "" {
        piece := piece + [WithText(el, secondHalf)];
      }
    } else {
      piece := [el];
    }
  }

  function CountType(els: seq<Element>, t: string): (n: nat)
    ensures n <= |els|
  {
    if els == [] then 0
    else CountType(els[..|els| - 1], t) + if TypeIs(els[|els| - 1], t) then 1 else 0
  }

  /** The loop's h1 counter is the number of h1 elements seen. */
  lemma {:induction false} PolishedH1Count(els: seq<Element>, p: Profile, sentencesOf: string -> seq<string>)
    ensures Polished(els, p, sentencesOf).h1Count == CountType(els, "h1")
  {
    if els != [] {
      PolishedH1Count(els[..|els| - 1], p, sentencesOf);
    }
  }

  /**
   * The h1 at index `i`, the `k`-th h1 counting from 0, is emitted as is,
   * preceded by a section divider carrying its text exactly when
   * `k >= insertDividerFromNthH1`.
   */
  lemma PolishedH1Divider(els: seq<Element>, i: nat, p: Profile, sentencesOf: string -> seq<string>)
    requires i < |els| && TypeIs(els[i], "h1")
    ensures Polished(els[..i + 1], p, sentencesOf).out ==
      Polished(els[..i], p, sentencesOf).out +
      (if CountType(els[..i], "h1") >= p.insertDividerFromNthH1 then [Divider(els[i])] else []) + [els[i]]
  {
    assert els[..i + 1][..i] == els[..i];
    PolishedH1Count(els[..i], p, sentencesOf);
  }

  /** Non-object entries and blank bodies leave no trace in the output. */
  lemma PolishedDrops(els: seq<Element>, i: nat, p: Profile, sentencesOf: string -> seq<string>)
    requires i < |els|
    requires !els[i].Object? || (TypeIs(els[i], "body") && Strip(TextOf(els[i])) == "")
    ensures Polished(els[..i + 1], p, sentencesOf).out == Polished(els[..i], p, sentencesOf).out
  {
    assert els[..i + 1][..i] == els[..i];
  }

  /** Whether the element just before index `i`, skipping non-objects, is a heading. */
  predicate AfterHeading(els: seq<Element>, i: nat)
    requires i <= |els|
    decreases i
  {
    i > 0 && if !els[i - 1].Object? then AfterHeading(els, i - 1) else IsHeading(els[i - 1])
  }

  /** The loop's `justSawHeading` flag holds exactly after a heading. */
  lemma {:induction false} PolishedJustSaw(els: seq<Element>, p: Profile, sentencesOf: string -> seq<string>)
    ensures Polished(els, p, sentencesOf).justSawHeading == AfterHeading(els, |els|)
  {
    if els != [] {
      var n := |els| - 1;
      PolishedJustSaw(els[..n], p, sentencesOf);
      AfterHeadingPrefix(els, n);
    }
  }

  lemma {:induction false} AfterHeadingPrefix(els: seq<Element>, n: nat)
    requires n <= |els|
    ensures AfterHeading(els[..n], n) == AfterHeading(els, n)
    decreases n
  {
    if n > 0 {
      AfterHeadingPrefix(els, n - 1);
      AfterHeadingPrefix(els[..n], n - 1);
      assert els[..n][..n - 1] == els[..n - 1];
    }
  }

  /**
   * A non-blank body right after a heading and at least `leadMinChars`
   * long becomes a lead, followed by a body with the remainder when there
   * is one.
   */
  lemma PolishedLead(els: seq<Element>, i: nat, p: Profile, sentencesOf: string -> seq<string>)
    requires i < |els| && TypeIs(els[i], "body")
    requires Strip(TextOf(els[i])) != "" && AfterHeading(els, i) && |Strip(TextOf(els[i]))| >= p.leadMinChars
    ensures var text := Strip(TextOf(els[i]));
      var h := SplitText(text, p, sentencesOf);
      Polished(els[..i + 1], p, sentencesOf).out == Polished(els[..i], p, sentencesOf).out +
        [AsLead(els[i], if h.first != "" then h.first else text)] + (if h.second != "" then [AsBody(els[i], h.second)] else [])
  {
    assert els[..i + 1][..i] == els[..i];
    PolishedJustSaw(els[..i], p, sentencesOf);
    AfterHeadingPrefix(els, i);
  }

  /** The elements the rewrite passes through: objects that are no body, lead or divider. */
  predicate Kept(el: Element) {
    el.Object? && !TypeIs(el, "body") && !TypeIs(el, "lead") && !TypeIs(el, "section_divider")
  }

  function KeptOnly(els: seq<Element>): seq<Element> {
    if els == [] then []
    else KeptOnly(els[..|els| - 1]) + if Kept(els[|els| - 1]) then [els[|els| - 1]] else []
  }

  lemma {:induction false} KeptOnlyAppend(a: seq<Element>, b: seq<Element>)
    ensures KeptOnly(a + b) == KeptOnly(a) + KeptOnly(b)
    decreases |b|
  {
    if b == [] {
      assert a + b == a;
    } else {
      var n := |b| - 1;
      assert (a + b)[..|a + b| - 1] == a + b[..n];
      KeptOnlyAppend(a, b[..n]);
    }
  }

  lemma BodyPieceKeepsNothing(el: Element, text: string, afterHeading: bool, p: Profile,
                              sentencesOf: string -> seq<string>)
    requires TypeIs(el, "body")
    ensures KeptOnly(BodyPiece(el, text, afterHeading, p, sentencesOf)) == []
  {
    var piece := BodyPiece(el, text, afterHeading, p, sentencesOf);
    forall k | 0 <= k < |piece| ensures !Kept(piece[k]) {}
    NoneKept(piece);
  }

  lemma {:induction false} NoneKept(els: seq<Element>)
    requires forall k :: 0 <= k < |els| ==> !Kept(els[k])
    ensures KeptOnly(els) == []
  {
    if els != [] {
      NoneKept(els[..|els| - 1]);
    }
  }

  /** One round of the loop adds the kept elements of the entry it reads, and no others. */
  lemma StepKept(st: PolishState, el: Element, p: Profile, sentencesOf: string -> seq<string>)
    ensures exists piece :: PolishStep(st, el, p, sentencesOf).out == st.out + piece && KeptOnly(piece) == KeptOnly([el])
  {
    assert KeptOnly([el]) == KeptOnly([]) + (if Kept(el) then [el] else []);
    if !el.Object? {
      assert st.out + [] == st.out;
    } else if TypeIs(el, "h1") {
      var d := if st.h1Count >= p.insertDividerFromNthH1 then [Divider(el)] else [];
      KeptOnlyAppend(d, [el]);
      assert KeptOnly(d) == [] by { if d != [] { assert KeptOnly(d) == KeptOnly([]) + []; } }
      assert PolishStep(st, el, p, sentencesOf).out == st.out + (d + [el]);
    } else if TypeIs(el, "h2") || TypeIs(el, "h3") {
      assert PolishStep(st, el, p, sentencesOf).out == st.out + [el];
    } else if TypeIs(el, "body") {
      var text := Strip(TextOf(el));
      if text == "" {
        assert st.out + [] == st.out;
      } else {
        BodyPieceKeepsNothing(el, text, st.justSawHeading, p, sentencesOf);
        assert PolishStep(st, el, p, sentencesOf).out == st.out + BodyPiece(el, text, st.justSawHeading, p, sentencesOf);
      }
    } else {
      assert PolishStep(st, el, p, sentencesOf).out == st.out + [el];
    }
  }

  /**
   * Every element other than bodies, leads and dividers passes through
   * the rewrite unchanged and in the same order: nothing is dropped,
   * duplicated or reordered among them.
   */
  lemma {:induction false} PolishedKeepsOthers(els: seq<Element>, p: Profile, sentencesOf: string -> seq<string>)
    ensures KeptOnly(Polished(els, p, sentencesOf).out) == KeptOnly(els)
  {
    if els != [] {
      var n := |els| - 1;
      PolishedKeepsOthers(els[..n], p, sentencesOf);
      PolishedSnocKept(els, p, sentencesOf);
      var piece :| Polished(els, p, sentencesOf).out == Polished(els[..n], p, sentencesOf).out + piece
                   && KeptOnly(piece) == KeptOnly([els[n]]);
      KeptCombine(Polished(els[..n], p, sentencesOf).out, piece, els[..n], els[n]);
      assert els[..n] + [els[n]] == els;
    }
  }

  /** The last entry adds a piece to what the entries before it produce, keeping what that entry keeps. */
  lemma PolishedSnocKept(els: seq<Element>, p: Profile, sentencesOf: string -> seq<string>)
    requires els != []
    ensures var n := |els| - 1;
      exists piece :: Polished(els, p, sentencesOf).out == Polished(els[..n], p, sentencesOf).out + piece
                      && KeptOnly(piece) == KeptOnly([els[n]])
  {
    var n := |els| - 1;
    PolishedLast(els, p, sentencesOf);
    StepKept(Polished(els[..n], p, sentencesOf), els[n], p, sentencesOf);
  }

  lemma PolishedLast(els: seq<Element>, p: Profile, sentencesOf: string -> seq<string>)
    requires els != []
    ensures Polished(els, p, sentencesOf) == PolishStep(Polished(els[..|els| - 1], p, sentencesOf), els[|els| - 1], p, sentencesOf)
  {
  }

  /** Appending a piece that keeps what one more entry keeps extends the kept elements by that entry's. */
  lemma KeptCombine(out: seq<Element>, piece: seq<Element>, front: seq<Element>, last: Element)
    requires KeptOnly(out) == KeptOnly(front) && KeptOnly(piece) == KeptOnly([last])
    ensures KeptOnly(out + piece) == KeptOnly(front + [last])
  {
    KeptOnlyAppend(out, piece);
    KeptOnlyAppend(front, [last]);
  }

  // ---------------------------------------------------------------------
  // style presets and settings on the theme object

  /** The properties of the theme object `C` that presets and settings write; any other is `Named`. */
  datatype ThemeKey =
    | SizeBody | SizeH1 | SizeH2 | SizeH3 | LineSpacing | Justify
    | BodyBefore | BodyAfter | H1Before | H1After | H2Before | H2After | H3Before | H3After
    | LeadBefore | LeadAfter | HFont | Font | BaseSize | ThemeType
    | Named(name: string)

  type Props = map<ThemeKey, JsValue>

  /** `C.key`. */
  function Prop(c: Props, key: ThemeKey): JsValue {
    if key in c then c[key] else Undefined
  }

  /** `_STYLE_PRESETS[key] || _STYLE_PRESETS.template`. */
  function PresetFor(key: string): Props {
    if key == "classic" then
      map[SizeBody := Num(21), SizeH1 := Num(34), SizeH2 := Num(28), SizeH3 := Num(24),
          LineSpacing := Num(420), Justify := Bool(true), BodyBefore := Num(140), BodyAfter := Num(180),
          H1Before := Num(520), H1After := Num(140), H2Before := Num(380), H2After := Num(120),
          H3Before := Num(260), H3After := Num(90), LeadBefore := Num(210), LeadAfter := Num(210)]
    else if key == "modern" then
      map[SizeBody := Num(20), SizeH1 := Num(32), SizeH2 := Num(26), SizeH3 := Num(22),
          LineSpacing := Num(384), Justify := Bool(false), BodyBefore := Num(100), BodyAfter := Num(150),
          H1Before := Num(420), H1After := Num(110), H2Before := Num(300), H2After := Num(90),
          H3Before := Num(220), H3After := Num(70), LeadBefore := Num(170), LeadAfter := Num(170)]
    else if key == "report" then
      map[SizeBody := Num(19), SizeH1 := Num(30), SizeH2 := Num(24), SizeH3 := Num(21),
          LineSpacing := Num(360), Justify := Bool(false), BodyBefore := Num(90), BodyAfter := Num(130),
          H1Before := Num(360), H1After := Num(100), H2Before := Num(260), H2After := Num(80),
          H3Before := Num(200), H3After := Num(60), LeadBefore := Num(150), LeadAfter := Num(150)]
    else if key == "magazine" then
      map[SizeBody := Num(21), SizeH1 := Num(36), SizeH2 := Num(30), SizeH3 := Num(24),
          LineSpacing := Num(408), Justify := Bool(true), BodyBefore := Num(150), BodyAfter := Num(200),
          H1Before := Num(560), H1After := Num(150), H2Before := Num(420), H2After := Num(130),
          H3Before := Num(280), H3After := Num(100), LeadBefore := Num(240), LeadAfter := Num(220)]
    else map[]
  }

  const PresetNames: set<string> := {"classic", "modern", "report", "magazine"}

  /** `String(presetKey || "template").toLowerCase()`. */
  function PresetKey(v: JsValue): string {
    Lower(ToStr(Or(v, Str("template"))))
  }

  /** A key naming no preset, `template` included, leaves the theme as it is. */
  lemma UnknownPresetUnchanged(c: Props, key: string)
    requires key !in PresetNames
    ensures c + PresetFor(key) == c
  {
  }

  /** `parseInt(String(v), 10)`: optional leading whitespace and sign, then the leading digits. */
  function ParseInt(v: JsValue): (r: JsValue)
    ensures r.Num? || r == NaN
  {
    var t := LStrip(ToStr(v));
    var neg := t != [] && t[0] == '-';
    var body := if t != [] && (t[0] == '-' || t[0] == '+') then t[1..] else t;
    var d := DigitRun(body);
    if d == 0 then NaN
    else Num(if neg then -(DigitsValue(body[..d]) as int) else DigitsValue(body[..d]))
  }

  /** The decimal numeral of a number, as a string or a number, parses back to it. */
  lemma ParseIntRoundTrip(n: nat)
    ensures ParseInt(Str(NatToString(n))) == Num(n)
    ensures ParseInt(Num(n)) == Num(n)
  {
    var s := NatToString(n);
    assert !IsSpace(s[0]) && s[0] != '-' && s[0] != '+' by { assert IsDigit(s[0]); }
    assert LStrip(s) == s;
    DigitRunStops(s, []);
    assert s + [] == s;
    assert s[..|s|] == s;
    DigitsValueOfNatToString(n);
  }

  /** `v + k` on a parsed number. */
  function Plus(v: JsValue, k: int): JsValue {
    if v.Num? then Num(v.n + k) else NaN
  }

  function WithBaseSize(c: Props, size: JsValue): Props {
    c[SizeBody := size][SizeH1 := Plus(size, 8)][SizeH2 := Plus(size, 4)]
     [SizeH3 := Plus(size, 2)][BaseSize := size]
  }

  function WithFonts(c: Props, settings: Obj): Props {
    var c1 := if Truthy(Get(settings, "h_font")) then c[HFont := Get(settings, "h_font")] else c;
    if Truthy(Get(settings, "b_font")) then c1[Font := Get(settings, "b_font")] else c1
  }

  function WithSize(c: Props, settings: Obj): Props {
    if Truthy(Get(settings, "base_size")) then WithBaseSize(c, ParseInt(Get(settings, "base_size"))) else c
  }

  function WithLineSpacing(c: Props, settings: Obj, twips: JsValue -> JsValue): Props {
    if Truthy(Get(settings, "line_spacing")) then c[LineSpacing := twips(Get(settings, "line_spacing"))]
    else if !Truthy(Prop(c, LineSpacing)) then c[LineSpacing := Num(384)]
    else c
  }

  function WithJustify(c: Props, settings: Obj): Props {
    if Get(settings, "justify") != Undefined then c[Justify := Get(settings, "justify")] else c
  }

  function WithSpacing(c: Props, settings: Obj, twips: JsValue -> JsValue): Props {
    WithJustify(WithLineSpacing(c, settings, twips), settings)
  }

  /**
   * The theme after `applyStylePreset` and the settings merge of `build`;
   * `twips` stands for `Math.round(parseFloat(v) * 240)`.
   */
  function Merged(c: Props, settings: Obj, twips: JsValue -> JsValue): Props {
    var preset := PresetFor(PresetKey(Or(Get(settings, "style_preset"), Str("template"))));
    WithSpacing(WithSize(WithFonts(c + preset, settings), settings), settings, twips)
  }

  /** The spacing step touches only the line spacing and the justification. */
  lemma SpacingKeepsOthers(c: Props, settings: Obj, twips: JsValue -> JsValue, key: ThemeKey)
    requires key != LineSpacing && key != Justify
    ensures Prop(WithSpacing(c, settings, twips), key) == Prop(c, key)
  {
  }

  /**
   * A base size `s` sets body, h1, h2 and h3 to `s`, `s + 8`, `s + 4` and
   * `s + 2`, whatever the preset and the theme said before.
   */
  lemma BaseSizeScale(c: Props, settings: Obj, twips: JsValue -> JsValue, s: int)
    requires Truthy(Get(settings, "base_size")) && ParseInt(Get(settings, "base_size")) == Num(s)
    ensures var m := Merged(c, settings, twips);
      Prop(m, SizeBody) == Num(s) && Prop(m, SizeH1) == Num(s + 8) &&
      Prop(m, SizeH2) == Num(s + 4) && Prop(m, SizeH3) == Num(s + 2) && Prop(m, BaseSize) == Num(s)
  {
    var preset := PresetFor(PresetKey(Or(Get(settings, "style_preset"), Str("template"))));
    var fonts := WithFonts(c + preset, settings);
    var sized := WithSize(fonts, settings);
    assert Merged(c, settings, twips) == WithSpacing(sized, settings, twips);
    SizeSets(fonts, settings, s);
    SpacingKeepsOthers(sized, settings, twips, SizeBody);
    SpacingKeepsOthers(sized, settings, twips, SizeH1);
    SpacingKeepsOthers(sized, settings, twips, SizeH2);
    SpacingKeepsOthers(sized, settings, twips, SizeH3);
    SpacingKeepsOthers(sized, settings, twips, BaseSize);
  }

  lemma SizeSets(c: Props, settings: Obj, s: int)
    requires Truthy(Get(settings, "base_size")) && ParseInt(Get(settings, "base_size")) == Num(s)
    ensures var m := WithSize(c, settings);
      Prop(m, SizeBody) == Num(s) && Prop(m, SizeH1) == Num(s + 8) &&
      Prop(m, SizeH2) == Num(s + 4) && Prop(m, SizeH3) == Num(s + 2) && Prop(m, BaseSize) == Num(s)
  {
  }

  /** After the merge the line spacing is truthy, or it is what `twips` gave for the setting. */
  lemma LineSpacingSet(c: Props, settings: Obj, twips: JsValue -> JsValue)
    ensures var m := Merged(c, settings, twips);
      Truthy(Prop(m, LineSpacing)) ||
      (Truthy(Get(settings, "line_spacing")) && Prop(m, LineSpacing) == twips(Get(settings, "line_spacing")))
  {
  }

  /** With no settings at all, only the template preset and the default line spacing apply. */
  lemma EmptySettings(c: Props, twips: JsValue -> JsValue)
    ensures Merged(c, map[], twips) == if Truthy(Prop(c, LineSpacing)) then c else c[LineSpacing := Num(384)]
  {
    EmptyMerged(c, twips);
    assert Get(map[], "line_spacing") == Undefined && Get(map[], "justify") == Undefined;
  }

  /** With no settings, the merge comes down to the spacing step on the theme as it is. */
  lemma EmptyMerged(c: Props, twips: JsValue -> JsValue)
    ensures Merged(c, map[], twips) == WithSpacing(c, map[], twips)
  {
    assert Or(Get(map[], "style_preset"), Str("template")) == Str("template");
    TemplatePreset();
    var fonts := WithFonts(c + map[], map[]);
    assert fonts == c;
    assert WithSize(fonts, map[]) == c;
  }

  /** The default `template` key names no preset, so it adds no properties. */
  lemma TemplatePreset()
    ensures PresetFor(PresetKey(Str("template"))) == map[]
  {
    TemplateKey();
    PresetForOther(PresetKey(Str("template")));
  }

  lemma TemplateKey()
    ensures PresetKey(Str("template")) == "template" && "template" !in PresetNames
  {
    LowerNoUpper("template");
  }

  /** A key naming no preset gives no properties. */
  lemma PresetForOther(key: string)
    requires key !in PresetNames
    ensures PresetFor(key) == map[]
  {
  }

  /** The theme object `C`, which the build updates in place. */
  class Theme {
    var props: Props

    constructor(props: Props)
      ensures this.props == props
    {
      this.props := props;
    }

    /** `applyStylePreset`: `Object.assign(C, preset)`. */
    method ApplyStylePreset(key: JsValue)
      modifies this
      ensures props == old(props) + PresetFor(PresetKey(key))
    {
      props := props + PresetFor(PresetKey(key));
    }

    /** The preset and the settings merge at the start of `build`. */
    method MergeSettings(settings: Obj, twips: JsValue -> JsValue)
      modifies this
      ensures props == Merged(old(props), settings, twips)
    {
      ApplyStylePreset(Or(Get(settings, "style_preset"), Str("template")));
      ApplyFonts(settings);
      ApplyBaseSize(settings);
      ApplySpacing(settings, twips);
    }

    /** The `h_font` and `b_font` settings of `build`. */
    method ApplyFonts(settings: Obj)
      modifies this
      ensures props == WithFonts(old(props), settings)
    {
      if Truthy(Get(settings, "h_font")) {
        props := props[HFont := Get(settings, "h_font")];
      }
      if Truthy(Get(settings, "b_font")) {
        props := props[Font := Get(settings, "b_font")];
      }
    }

    /** The `base_size` setting of `build`. */
    method ApplyBaseSize(settings: Obj)
      modifies this
      ensures props == WithSize(old(props), settings)
    {
      if Truthy(Get(settings, "base_size")) {
        var s := ParseInt(Get(settings, "base_size"));
        props := props[SizeBody := s][SizeH1 := Plus(s, 8)][SizeH2 := Plus(s, 4)]
                      [SizeH3 := Plus(s, 2)][BaseSize := s];
      }
    }

    /** The `line_spacing` and `justify` settings of `build`. */
    method ApplySpacing(settings: Obj, twips: JsValue -> JsValue)
      modifies this
      ensures props == WithSpacing(old(props), settings, twips)
    {
      if Truthy(Get(settings, "line_spacing")) {
        props := props[LineSpacing := twips(Get(settings, "line_spacing"))];
      } else if !Truthy(Prop(props, LineSpacing)) {
        props := props[LineSpacing := Num(384)];
      }
      if Get(settings, "justify") != Undefined {
        props := props[Justify := Get(settings, "justify")];
      }
    }
  }

  // ---------------------------------------------------------------------
  // page margins and sections

  datatype Margins = Margins(top: nat, right: nat, bottom: nat, left: nat)

  const PageWidth := 11906
  const PageHeight := 16838

  /** The margins of `build`: the `margins` setting, then the theme type, then the default. */
  function MarginsFor(settings: Obj, c: Props): (m: Margins)
    ensures m.left + m.right < PageWidth && m.top + m.bottom < PageHeight
  {
    if Get(settings, "margins") == Str("wide") then Margins(2160, 2160, 2160, 2160)
    else if Get(settings, "margins") == Str("narrow") then Margins(1080, 1080, 1080, 1080)
    else if Prop(c, ThemeType) == Str("MINIMAL") then Margins(1800, 2000, 1800, 2000)
    else if Prop(c, ThemeType) == Str("EDITORIAL") then Margins(1080, 1080, 1440, 1080)
    else Margins(1260, 1260, 1260, 1440)
  }

  /**
   * A `wide` or `narrow` setting decides the margins whatever the theme
   * type; otherwise a MINIMAL or EDITORIAL theme has margins of its own,
   * different from the default.
   */
  lemma MarginsPrecedence(settings: Obj, c1: Props, c2: Props)
    ensures Get(settings, "margins") in {Str("wide"), Str("narrow")} ==> MarginsFor(settings, c1) == MarginsFor(settings, c2)
    ensures (Get(settings, "margins") !in {Str("wide"), Str("narrow")} && Prop(c1, ThemeType) in {Str("MINIMAL"), Str("EDITORIAL")} &&
      Prop(c2, ThemeType) !in {Str("MINIMAL"), Str("EDITORIAL")}) ==> MarginsFor(settings, c1) != MarginsFor(settings, c2)
  {
  }

  /** The index just past the first `chapter_title`, or the length. */
  function ChapterEnd(els: seq<Element>): (i: nat)
    ensures i <= |els|
    ensures forall j :: 0 <= j < i - 1 ==> !TypeIs(els[j], "chapter_title")
    ensures i < |els| ==> i > 0 && TypeIs(els[i - 1], "chapter_title")
  {
    if els == [] then 0
    else if TypeIs(els[0], "chapter_title") then 1
    else 1 + ChapterEnd(els[1..])
  }

  /** What `build` lays out: the elements, their split between the two sections, and the margins. */
  datatype Layout = Layout(elements: seq<Element>, header: seq<Element>, body: seq<Element>, margins: Margins, twoColumns: bool)

  /**
   * The element part of `build` on the merged theme: polished when
   * polishing is on and the document is text-heavy; with an EDITORIAL theme
   * the elements up to the first `chapter_title` go to the one-column
   * section and the rest to the two-column one.
   */
  function LayoutOf(els: seq<Element>, settings: Obj, c: Props, sentencesOf: string -> seq<string>): Layout {
    var p := ProfileOf(ResolveLevel(settings));
    var src := if Enabled(settings) && TextHeavy(els, p) then Polished(els, p, sentencesOf).out else els;
    var editorial := Prop(c, ThemeType) == Str("EDITORIAL");
    var cut := if editorial then ChapterEnd(src) else |src|;
    Layout(src, src[..cut], src[cut..], MarginsFor(settings, c), editorial)
  }

  /** `build`, up to the construction of the document objects. */
  method Build(els: seq<Element>, settings: Obj, theme: Theme, sentencesOf: string -> seq<string>,
               twips: JsValue -> JsValue) returns (layout: Layout)
    modifies theme
    ensures theme.props == Merged(old(theme.props), settings, twips)
    ensures layout == LayoutOf(els, settings, theme.props, sentencesOf)
  {
    theme.MergeSettings(settings, twips);
    var level := ResolveLevel(settings);
    var p := ProfileOf(level);
    var src := els;
    if Enabled(settings) {
      var heavy := IsTextHeavyDocument(els, p);
      if heavy {
        src := AutoPolishElements(els, p, sentencesOf);
      }
    }
    var editorial := Prop(theme.props, ThemeType) == Str("EDITORIAL");
    var header, body := RouteSections(src, editorial);
    layout := Layout(src, header, body, MarginsFor(settings, theme.props), editorial);
  }

  /** The routing loop of `build`: with `editorial`, elements go to the header section until a `chapter_title` has gone there. */
  method RouteSections(src: seq<Element>, editorial: bool) returns (header: seq<Element>, body: seq<Element>)
    ensures var cut := if editorial then ChapterEnd(src) else |src|;
      header == src[..cut] && body == src[cut..]
  {
    header := [];
    body := [];
    var cut := if editorial then ChapterEnd(src) else |src|;
    var reachedChapterBody := false;
    var i := 0;
    while i < |src|
      invariant 0 <= i <= |src|
      invariant header == src[..Min(i, cut)] && body == src[Min(i, cut)..i]
      invariant reachedChapterBody <==> editorial && 0 < cut <= i && TypeIs(src[cut - 1], "chapter_title")
    {
      if editorial && !reachedChapterBody {
        header := header + [src[i]];
        if TypeIs(src[i], "chapter_title") {
          reachedChapterBody := true;
        }
      } else if editorial {
        body := body + [src[i]];
      } else {
        header := header + [src[i]];
      }
      assert src[..i + 1] == src[..i] + [src[i]];
      i := i + 1;
    }
  }

  function Min(a: nat, b: nat): nat { if a <= b then a else b }

  /** The two sections together hold every element, in order. */
  lemma LayoutCovers(els: seq<Element>, settings: Obj, c: Props, sentencesOf: string -> seq<string>)
    ensures var l := LayoutOf(els, settings, c, sentencesOf);
      l.header + l.body == l.elements && (!l.twoColumns ==> l.body == [])
  {
    var l := LayoutOf(els, settings, c, sentencesOf);
    var cut := |l.header|;
    assert l.header == l.elements[..cut] && l.body == l.elements[cut..];
    CutJoins(l.elements, cut);
  }

  lemma CutJoins(s: seq<Element>, cut: nat)
    requires cut <= |s|
    ensures s[..cut] + s[cut..] == s
  {
  }

  /** With polishing switched off the elements are laid out exactly as given. */
  lemma DisabledKeepsElements(els: seq<Element>, settings: Obj, c: Props, sentencesOf: string -> seq<string>)
    requires !Enabled(settings)
    ensures LayoutOf(els, settings, c, sentencesOf).elements == els
  {
  }
}
