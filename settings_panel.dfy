// Settings panel rules: the per-template auto-polish level table, its
// override file, the recommended level kept by the panel, the effective
// level chosen by the auto-polish combo box, and the value mapping of
// `get_settings`. Widget values are parameters; Qt itself is not modelled.

module SettingsPanel {
  import opened Text

  // ---------------------------------------------------------------------
  // auto-polish levels

  /** The three levels a template may recommend. */
  datatype PolishLevel = Weak | Normal | Strong

  function LevelName(l: PolishLevel): string {
    match l
    case Weak => "weak"
    case Normal => "normal"
    case Strong => "strong"
  }

  /** `level in {"weak", "normal", "strong"}`, with the level it names. */
  function ParseLevel(s: string): (r: Option<PolishLevel>)
    ensures r.Some? ==> LevelName(r.value) == s
  {
    if s == "weak" then Some(Weak)
    else if s == "normal" then Some(Normal)
    else if s == "strong" then Some(Strong)
    else None
  }

  /** Level names and `ParseLevel` are inverse to each other. */
  lemma ParseLevelRoundTrip(l: PolishLevel, s: string)
    ensures ParseLevel(LevelName(l)) == Some(l)
    ensures ParseLevel(s).Some? <==> s in {"weak", "normal", "strong"}
  {
  }

  // ---------------------------------------------------------------------
  // the default table

  /** The recommended level of templates 01 to 50, in order. */
  const DefaultTable: seq<PolishLevel> := [
    Strong, Weak, Normal, Strong, Normal, Normal, Strong, Strong, Normal, Strong,
    Weak, Weak, Normal, Strong, Weak, Normal, Normal, Strong, Strong, Normal,
    Normal, Strong, Strong, Normal, Normal, Strong, Weak, Normal, Weak, Weak,
    Weak, Weak, Weak, Weak, Normal, Normal, Strong, Strong, Weak, Normal,
    Normal, Normal, Normal, Weak, Normal, Strong, Strong, Strong, Strong, Normal
  ]

  /** The two-digit id of template `n`: "01" … "50". */
  function TemplateId(n: nat): (r: string)
    ensures AllDigits(r) && |r| >= 2
  {
    ZFill2(NatToString(n))
  }

  /** Distinct template numbers have distinct ids. */
  lemma TemplateIdInjective(a: nat, b: nat)
    requires TemplateId(a) == TemplateId(b)
    ensures a == b
  {
    var sa, sb := NatToString(a), NatToString(b);
    if |sa| == |sb| {
      if |sa| < 2 {
        assert sa == TemplateId(a)[1..] == TemplateId(b)[1..] == sb;
      } else {
        assert sa == TemplateId(a) == TemplateId(b) == sb;
      }
      NatToStringInjective(a, b);
    }
  }

  lemma TemplateIdsDistinct()
    ensures forall a: nat, b: nat :: TemplateId(a) == TemplateId(b) ==> a == b
  {
    forall a: nat, b: nat | TemplateId(a) == TemplateId(b) ensures a == b {
      TemplateIdInjective(a, b);
    }
  }

  /** `_DEFAULT_TEMPLATE_LEVEL_MAP`: template id to recommended level. */
  function DefaultLevels(): map<string, PolishLevel> {
    TemplateIdsDistinct();
    map n: nat | 1 <= n <= 50 :: TemplateId(n) := DefaultTable[n - 1]
  }

  /** Template `n` of 1 … 50 has its table level in the default map. */
  lemma DefaultLevelsAt(n: nat)
    requires 1 <= n <= 50
    ensures TemplateId(n) in DefaultLevels() && DefaultLevels()[TemplateId(n)] == DefaultTable[n - 1]
  {
    var m := DefaultLevels();
    var k := TemplateId(n);
    assert k in m;
    var j :| 1 <= j <= 50 && TemplateId(j) == k && m[k] == DefaultTable[j - 1];
    TemplateIdInjective(n, j);
  }

  /** The default table holds the fifty ids "01" … "50" and nothing else. */
  lemma DefaultLevelsKeys(k: string)
    ensures k in DefaultLevels() <==> exists n :: 1 <= n <= 50 && k == TemplateId(n)
  {
  }

  // ---------------------------------------------------------------------
  // normalising template ids

  /** `str(key).strip()`, then `zfill(2)` when every character is a digit. */
  function NormalizeId(raw: string): (r: string)
    ensures AllDigits(Strip(raw)) ==> |r| >= 2 && AllDigits(r)
    ensures !AllDigits(Strip(raw)) ==> r == Strip(raw)
  {
    var t := Strip(raw);
    if AllDigits(t) then ZFill2(t) else t
  }

  /** A single digit gains a leading zero: "3" becomes "03". */
  lemma NormalizeIdPads(raw: string)
    requires AllDigits(Strip(raw)) && |Strip(raw)| == 1
    ensures NormalizeId(raw) == ['0'] + Strip(raw)
  {
  }

  /** Normalising an id twice changes nothing more. */
  lemma NormalizeIdIdempotent(raw: string)
    ensures NormalizeId(NormalizeId(raw)) == NormalizeId(raw)
  {
    var t := Strip(raw);
    StripFacts(raw);
    var r := NormalizeId(raw);
    if AllDigits(t) {
      assert !IsSpace(r[0]) && !IsSpace(r[|r| - 1]);
    }
    StripOfClean(r);
  }

  /** Any decimal spelling of a template number finds that template's id. */
  lemma NormalizeNumber(n: nat)
    requires 1 <= n
    ensures NormalizeId(NatToString(n)) == TemplateId(n)
  {
    var s := NatToString(n);
    assert !IsSpace(s[0]) && !IsSpace(s[|s| - 1]);
    StripOfClean(s);
  }

  // ---------------------------------------------------------------------
  // loading the override file

  /** One `key: value` pair of the override file, each as its `str()` text. */
  datatype ConfigEntry = ConfigEntry(key: string, value: string)

  /** What reading `template_auto_polish_levels.json` produced. */
  datatype Config =
    | Missing                                 // the file does not exist
    | Unparseable                             // reading or JSON decoding raised
    | NotObject                               // valid JSON, but not an object
    | Object(entries: seq<ConfigEntry>)       // the object's pairs in order

  /** The level an entry names once trimmed and lower-cased, if it is one. */
  function EntryLevel(e: ConfigEntry): Option<PolishLevel> {
    ParseLevel(Lower(Strip(e.value)))
  }

  /** An entry overrides only with a non-empty id and a known level. */
  predicate Accepts(e: ConfigEntry) {
    NormalizeId(e.key) != "" && EntryLevel(e).Some?
  }

  /** The table after applying one entry. */
  function ApplyEntry(m: map<string, PolishLevel>, e: ConfigEntry): map<string, PolishLevel> {
    if Accepts(e) then m[NormalizeId(e.key) := EntryLevel(e).value] else m
  }

  /** The table after applying the entries in order. */
  function Merged(m: map<string, PolishLevel>, es: seq<ConfigEntry>): map<string, PolishLevel>
    decreases |es|
  {
    if es == [] then m else ApplyEntry(Merged(m, es[..|es| - 1]), es[|es| - 1])
  }

  /** `_load_template_level_map`. */
  function LoadLevelMap(config: Config): map<string, PolishLevel> {
    if config.Object? then Merged(DefaultLevels(), config.entries) else DefaultLevels()
  }

  /** The level the last accepted entry for id `k` names, if any. */
  function LastOverride(es: seq<ConfigEntry>, k: string): (r: Option<PolishLevel>)
    decreases |es|
  {
    if es == [] then None
    else
      var e := es[|es| - 1];
      if Accepts(e) && NormalizeId(e.key) == k then EntryLevel(e)
      else LastOverride(es[..|es| - 1], k)
  }

  /** An id is in the merged table iff it was a default or some entry set it;
    * its level is that of the last accepted entry for it, else the default. */
  lemma {:induction false} MergedLookup(m: map<string, PolishLevel>, es: seq<ConfigEntry>, k: string)
    ensures k in Merged(m, es) <==> (k in m || LastOverride(es, k).Some?)
    ensures LastOverride(es, k).Some? ==> Merged(m, es)[k] == LastOverride(es, k).value
    ensures LastOverride(es, k).None? && k in m ==> Merged(m, es)[k] == m[k]
    decreases |es|
  {
    if es != [] {
      MergedLookup(m, es[..|es| - 1], k);
    }
  }

  /** Without a readable JSON object the defaults are returned unchanged. */
  lemma LoadWithoutObject(config: Config)
    requires !config.Object?
    ensures LoadLevelMap(config) == DefaultLevels()
  {
  }

  /** An entry whose level is not weak/normal/strong, or whose id is blank,
    * changes nothing. */
  lemma RejectedEntryIgnored(m: map<string, PolishLevel>, es: seq<ConfigEntry>, e: ConfigEntry)
    requires !Accepts(e)
    ensures Merged(m, es + [e]) == Merged(m, es)
  {
    assert (es + [e])[..|es|] == es;
  }

  /** Entries never remove a template: every default id stays. */
  lemma LoadKeepsDefaults(config: Config, n: nat)
    requires 1 <= n <= 50
    ensures TemplateId(n) in LoadLevelMap(config)
  {
    DefaultLevelsAt(n);
    if config.Object? {
      MergedLookup(DefaultLevels(), config.entries, TemplateId(n));
    }
  }

  /** The override loop of `_load_template_level_map`. */
  method LoadTemplateLevelMap(config: Config) returns (merged: map<string, PolishLevel>)
    ensures merged == LoadLevelMap(config)
  {
    merged := DefaultLevels();
    if !config.Object? {
      return;
    }
    var entries := config.entries;
    for i := 0 to |entries|
      invariant merged == Merged(DefaultLevels(), entries[..i])
    {
      assert entries[..i + 1][..i] == entries[..i];
      var id := NormalizeId(entries[i].key);
      var level := ParseLevel(Lower(Strip(entries[i].value)));
      if id != "" && level.Some? {
        merged := merged[id := level.value];
      }
    }
    assert entries[..|entries|] == entries;
  }

  // ---------------------------------------------------------------------
  // recommending a level for a template

  /** `_recommend_level_from_template`: `id` is `None` when the template
    * has no id or a falsy one. */
  function Recommend(levels: map<string, PolishLevel>, id: Option<string>): (r: PolishLevel)
    ensures var k := NormalizeId(if id.Some? then id.value else "");
      (k in levels ==> r == levels[k]) && (k !in levels ==> r == Normal)
  {
    var k := NormalizeId(if id.Some? then id.value else "");
    if k in levels then levels[k] else Normal
  }

  /** With the default table, template `n` written as a plain number ("3")
    * or padded ("03") gets its table level; an id not in the table
    * gets `normal`. */
  lemma RecommendDefault(n: nat, id: string)
    requires 1 <= n <= 50
    ensures Recommend(DefaultLevels(), Some(NatToString(n))) == DefaultTable[n - 1]
    ensures Recommend(DefaultLevels(), Some(TemplateId(n))) == DefaultTable[n - 1]
    ensures (forall m :: 1 <= m <= 50 ==> NormalizeId(id) != TemplateId(m)) ==>
      Recommend(DefaultLevels(), Some(id)) == Normal
  {
    NormalizeNumber(n);
    DefaultLevelsAt(n);
    var t := TemplateId(n);
    assert !IsSpace(t[0]) && !IsSpace(t[|t| - 1]);
    StripOfClean(t);
  }

  /** A template's id and the override file's key are normalised the same
    * way: the last accepted entry for that id decides the recommendation. */
  lemma RecommendOverride(es: seq<ConfigEntry>, id: string)
    requires LastOverride(es, NormalizeId(id)).Some?
    ensures Recommend(LoadLevelMap(Object(es)), Some(id)) == LastOverride(es, NormalizeId(id)).value
  {
    MergedLookup(DefaultLevels(), es, NormalizeId(id));
  }

  // ---------------------------------------------------------------------
  // the effective level

  const ModeTemplate := "템플릿 추천 (기본)"
  const ModeClean := "클린 (약하게)"
  const ModeBalance := "밸런스 (기본)"
  const ModeMagazine := "매거진 (강하게)"
  const ModeOff := "끄기"

  /** Whether auto-polish runs, and the level name handed to the builder. */
  datatype Resolved = Resolved(enabled: bool, level: string)

  /** `_resolve_effective_auto_polish_level` for the combo text `mode`. */
  function Resolve(mode: string, recommended: PolishLevel): (r: Resolved)
    ensures !r.enabled <==> mode == ModeOff
    ensures r.enabled ==> ParseLevel(r.level).Some?
    ensures mode !in {ModeOff, ModeClean, ModeMagazine, ModeBalance} ==>
      r.level == LevelName(recommended)
  {
    if mode == ModeOff then Resolved(false, "off")
    else if mode == ModeClean then Resolved(true, "weak")
    else if mode == ModeMagazine then Resolved(true, "strong")
    else if mode == ModeBalance then Resolved(true, "normal")
    else Resolved(true, LevelName(recommended))
  }

  /** The combo entry that fixes a level. */
  function ModeFor(l: PolishLevel): string {
    match l
    case Weak => ModeClean
    case Normal => ModeBalance
    case Strong => ModeMagazine
  }

  /** Every fixed mode yields its level whatever the template recommends;
    * the template mode yields the recommendation; only "끄기" disables. */
  lemma ResolveModes(l: PolishLevel, recommended: PolishLevel)
    ensures Resolve(ModeFor(l), recommended) == Resolved(true, LevelName(l))
    ensures Resolve(ModeTemplate, recommended) == Resolved(true, LevelName(recommended))
    ensures Resolve(ModeOff, recommended) == Resolved(false, "off")
  {
  }

  // ---------------------------------------------------------------------
  // get_settings

  /** The widget values `get_settings` reads. */
  datatype Widgets = Widgets(
    headingFont: string,
    bodyFont: string,
    baseSize: int,
    lineSpacing: string,
    margins: string,
    stylePreset: string,
    autoPolishMode: string,
    justify: bool,
    coverTitle: string,
    coverSubtitle: string,
    coverAuthor: string,
    autoToc: bool,
    headerText: string,
    pageNumbers: bool)

  /** The dictionary `get_settings` returns. */
  datatype Settings = Settings(
    hFont: string,
    bFont: string,
    baseSize: string,
    lineSpacing: string,
    margins: string,
    stylePreset: string,
    autoPolish: bool,
    autoPolishLevel: string,
    justify: bool,
    coverTitle: string,
    coverSubtitle: string,
    coverAuthor: string,
    autoToc: bool,
    headerText: string,
    pageNumbers: bool)

  const DefaultWord := "기본"

  /** A font choice: "" when it is a default entry, else the font itself. */
  function FontChoice(font: string): (r: string)
    ensures r == "" || r == font
    ensures r == font <==> (font == "" || !Contains(font, DefaultWord))
  {
    if Contains(font, DefaultWord) then "" else font
  }

  /** `""` for the special value 8 (and below), else `str(size)`. */
  function BaseSizeChoice(size: int): (r: string)
    ensures r == "" <==> size <= 8
  {
    if size <= 8 then "" else IntToString(size)
  }

  /** A chosen size reads back as the same number. */
  lemma BaseSizeRoundTrip(size: int)
    requires size > 8
    ensures AllDigits(BaseSizeChoice(size)) && DigitsValue(BaseSizeChoice(size)) == size
  {
    DigitsValueOfNatToString(size);
  }

  /** `s.split()[0]`; `None` where `split()` is empty and indexing raises. */
  function FirstToken(s: string): (r: Option<string>)
  {
    var ws := Words(s);
    if ws == [] then None else Some(ws[0])
  }

  /** The first token is the first maximal run of non-whitespace: `s` is
    * whitespace, the token, then nothing or whitespace. There is none
    * exactly when `s` is all whitespace. */
  lemma FirstTokenSpec(s: string)
    ensures FirstToken(s).None? <==> AllSpace(s)
    ensures FirstToken(s).Some? ==>
      (var w := FirstToken(s).value;
       var p := |s| - |LStrip(s)|;
       w != [] && AllSpace(s[..p]) && s[p..p + |w|] == w &&
       (forall i :: 0 <= i < |w| ==> !IsSpace(w[i])) &&
       (p + |w| == |s| || IsSpace(s[p + |w|])))
  {
    LStripSpec(s);
    var t := LStrip(s);
    var p := |s| - |t|;
    if t == [] {
      assert s[..p] == s;
    } else {
      assert !AllSpace(s) by { assert !IsSpace(s[p]); }
      var w := t[..WordLen(t)];
      assert s[p..p + |w|] == w;
    }
  }

  /** Line spacing: "" for a default entry, else the option's first token. */
  function LineSpacingChoice(option: string): (r: Option<string>)
    ensures Contains(option, DefaultWord) ==> r == Some("")
    ensures !Contains(option, DefaultWord) ==> r == FirstToken(option)
  {
    if Contains(option, DefaultWord) then Some("") else FirstToken(option)
  }

  const MarginNarrow := "좁게"
  const MarginWide := "넓게"

  function MarginChoice(option: string): (r: string)
    ensures r in {"narrow", "wide", "default"}
  {
    if option == MarginNarrow then "narrow"
    else if option == MarginWide then "wide"
    else "default"
  }

  const StyleClassic := "클래식 문서"
  const StyleModern := "모던 문서"
  const StyleReport := "리포트 문서"
  const StyleMagazine := "매거진 문서"

  function StyleChoice(option: string): (r: string)
    ensures r in {"template", "classic", "modern", "report", "magazine"}
  {
    if option == StyleClassic then "classic"
    else if option == StyleModern then "modern"
    else if option == StyleReport then "report"
    else if option == StyleMagazine then "magazine"
    else "template"
  }

  /** The combo entry for each margin value and each style preset. */
  function MarginOption(margins: string): string {
    if margins == "narrow" then MarginNarrow else if margins == "wide" then MarginWide else "기본"
  }

  function StyleOption(preset: string): string {
    if preset == "classic" then StyleClassic
    else if preset == "modern" then StyleModern
    else if preset == "report" then StyleReport
    else if preset == "magazine" then StyleMagazine
    else "템플릿 기반 (기본)"
  }

  /** Each margin value and style preset is reached from exactly its own
    * combo entry. */
  lemma ChoicesRoundTrip(margins: string, preset: string)
    ensures margins in {"narrow", "wide", "default"} ==> MarginChoice(MarginOption(margins)) == margins
    ensures preset in {"template", "classic", "modern", "report", "magazine"} ==>
      StyleChoice(StyleOption(preset)) == preset
  {
  }

  /** `get_settings`; `None` when the line-spacing text has no token and
    * `split()[0]` raises. */
  function SettingsOf(w: Widgets, recommended: PolishLevel): (r: Option<Settings>)
    ensures r.None? <==> LineSpacingChoice(w.lineSpacing).None?
  {
    var spacing := LineSpacingChoice(w.lineSpacing);
    if spacing.None? then None
    else
      var polish := Resolve(w.autoPolishMode, recommended);
      Some(Settings(
        FontChoice(w.headingFont), FontChoice(w.bodyFont), BaseSizeChoice(w.baseSize),
        spacing.value, MarginChoice(w.margins), StyleChoice(w.stylePreset),
        polish.enabled, polish.level, w.justify,
        Strip(w.coverTitle), Strip(w.coverSubtitle), Strip(w.coverAuthor),
        w.autoToc, Strip(w.headerText), w.pageNumbers))
  }

  /** Whatever the widgets hold, the settings use only the values the
    * layout builder knows, and the texts carry no surrounding whitespace. */
  lemma SettingsValues(w: Widgets, recommended: PolishLevel)
    requires SettingsOf(w, recommended).Some?
    ensures var s := SettingsOf(w, recommended).value;
      s.margins in {"narrow", "wide", "default"} &&
      s.stylePreset in {"template", "classic", "modern", "report", "magazine"} &&
      (s.autoPolish <==> s.autoPolishLevel != "off") &&
      (s.baseSize == "" || DigitsValue(s.baseSize) == w.baseSize) &&
      (forall i :: 0 <= i < |s.lineSpacing| ==> !IsSpace(s.lineSpacing[i])) &&
      (s.coverTitle == [] || (!IsSpace(s.coverTitle[0]) && !IsSpace(s.coverTitle[|s.coverTitle| - 1])))
  {
    var s := SettingsOf(w, recommended).value;
    if w.baseSize > 8 {
      BaseSizeRoundTrip(w.baseSize);
    }
    if !Contains(w.lineSpacing, DefaultWord) {
      FirstTokenSpec(w.lineSpacing);
    }
    StripFacts(w.coverTitle);
  }

  // ---------------------------------------------------------------------
  // the panel

  /** A level table in which template ids are already normalised. */
  predicate NormalizedKeys(levels: map<string, PolishLevel>) {
    forall k :: k in levels ==> NormalizeId(k) == k
  }

  /** Loaded tables only hold normalised ids. */
  lemma {:induction false} MergedNormalized(m: map<string, PolishLevel>, es: seq<ConfigEntry>)
    requires NormalizedKeys(m)
    ensures NormalizedKeys(Merged(m, es))
    decreases |es|
  {
    if es != [] {
      MergedNormalized(m, es[..|es| - 1]);
      var e := es[|es| - 1];
      if Accepts(e) {
        NormalizeIdIdempotent(e.key);
      }
    }
  }

  lemma DefaultsNormalized()
    ensures NormalizedKeys(DefaultLevels())
  {
    forall k | k in DefaultLevels() ensures NormalizeId(k) == k {
      var n :| 1 <= n <= 50 && k == TemplateId(n);
      TemplateIdNormalized(n);
    }
  }

  /** A template id is already in normal form. */
  lemma TemplateIdNormalized(n: nat)
    ensures NormalizeId(TemplateId(n)) == TemplateId(n)
  {
    var k := TemplateId(n);
    assert !IsSpace(k[0]) && !IsSpace(k[|k| - 1]);
    StripOfClean(k);
  }

  /** In a table of normalised ids every stored level is reachable: the
    * id itself recommends it. */
  lemma RecommendStored(levels: map<string, PolishLevel>, k: string)
    requires NormalizedKeys(levels) && k in levels
    ensures Recommend(levels, Some(k)) == levels[k]
  {
  }

  /** The panel state the rules read and write. */
  class Panel {
    var levelMap: map<string, PolishLevel>
    var recommended: PolishLevel

    predicate Valid()
      reads this
    {
      NormalizedKeys(levelMap)
    }

    /** `__init__`: recommended level `normal`, table loaded. */
    constructor (config: Config)
      ensures levelMap == LoadLevelMap(config) && recommended == Normal
      ensures Valid()
    {
      var m := LoadTemplateLevelMap(config);
      levelMap := m;
      recommended := Normal;
      DefaultsNormalized();
      if config.Object? {
        MergedNormalized(DefaultLevels(), config.entries);
      }
    }

    /** `set_template_auto_polish_hint`: only the recommendation changes. */
    method SetTemplateAutoPolishHint(id: Option<string>)
      requires Valid()
      modifies this
      ensures levelMap == old(levelMap)
      ensures recommended == Recommend(levelMap, id)
      ensures Valid()
    {
      recommended := Recommend(levelMap, id);
    }

    /** `get_settings` for the current widget values. */
    method GetSettings(w: Widgets) returns (r: Option<Settings>)
      ensures r == SettingsOf(w, recommended)
    {
      var spacing := LineSpacingChoice(w.lineSpacing);
      if spacing.None? {
        return None;
      }
      var polish := Resolve(w.autoPolishMode, recommended);
      r := Some(Settings(
        FontChoice(w.headingFont), FontChoice(w.bodyFont), BaseSizeChoice(w.baseSize),
        spacing.value, MarginChoice(w.margins), StyleChoice(w.stylePreset),
        polish.enabled, polish.level, w.justify,
        Strip(w.coverTitle), Strip(w.coverSubtitle), Strip(w.coverAuthor),
        w.autoToc, Strip(w.headerText), w.pageNumbers));
    }
  }
}
