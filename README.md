# DocStyle Pro — a verified model of the document pipeline

DocStyle Pro turns a Word (`.docx`) or Markdown manuscript into a styled
document. A parser reads the manuscript into a list of typed elements
(headings, body text, quotes, bullets, tables, images, questions and
answers, prompt boxes). A JSON bridge serialises those elements for the
JavaScript layout engine, which rebuilds the document with a theme.
Around this pipeline sit an image extractor and injector for the `.docx`
package, a structure doctor that checks Markdown headings and normalises
a note's headings, blank lines and title line, a
settings panel that chooses polishing levels per template, and a vault
indexer that cuts notes into chunks for a vector store. The same source
tree also holds a shipping-list tool, whose list building, event parsing
and saved-list lookup are modelled as well.

Most modules model one source file. `Text` gathers the string helpers
that many files share, `Files` models the file system and the zip
archives the code reaches through `zipfile` and `shutil`, and
`VaultIndexer` covers both copies of the vault indexer:

- `Text`: the string operations the Python and JavaScript code relies on, such as `strip`, `split`, `splitlines`, `lower`, `str(n)`, path names and `sorted`.
- `Models`: the element kinds and their default records.
- `MdParser`: the Markdown parser, including frontmatter, tag blocks and tables.
- `StructureAnalyzer`: the classification of paragraphs and tables.
- `DocxParser`: the `.docx` orchestrator, covering the relationship map, answer merging and metadata enrichment.
- `JsonBuilder`: the JSON bridge.
- `Files`: a file system and zip-package model, as a class with update-in-place methods.
- `MediaExtractor`: the parser's image extraction.
- `ImageRecords` and `ImageInjector`: the image extraction and the image injection of the core package.
- `LegacyDocxParser`: the older `.docx` parser that classifies paragraphs by style names, run formatting and keywords.
- `StructureDoctor`: the structure doctor.
- `LayoutBuilder`: the theme and build-entry logic of `builder.js`. The theme is a class whose methods assign its properties.
- `VaultIndexer`: the vault chunker.
- `SettingsPanel`: the settings panel, as a class holding the level map and the recommendation.
- `Shipping`: the shipping tool's list, event and calendar logic.

Every operation has a contract. The properties that relate operations to
each other are stated as lemmas. These cover round trips, preserved
invariants, orderings and what stays unchanged.

## Model

| member | source | states |
|---|---|---|
| Models.TagsAreTwentyAndDistinct | python312_qt6/docstyle-pro_claude_v4/parser/models.py:19-40 | there are twenty element types and their tag strings are pairwise distinct |
| Models.DefaultOf | python312_qt6/docstyle-pro_claude_v4/parser/models.py:47-116 | the default element of a type has that type and every other field blank |
| MdParser.FindClosing | docstyle-pro_claude_v4/parser/md_parser.py:81 | the closing `---` line is the first delimiter line at or after the given line that still has a newline after it; no earlier line from there qualifies |
| MdParser.Opening | docstyle-pro_claude_v4/parser/md_parser.py:81 | the opening delimiter's greedy `\s*` swallows the whitespace-only lines after it and gives them back one at a time: the header starts at the latest start that has a closing delimiter after it, no later start has one, and there is no front matter when no start has one |
| MdParser.FirstContentLine | docstyle-pro_claude_v4/parser/md_parser.py:81 | the body starts after the whitespace-only lines that the closing delimiter's `\s*` consumes |
| MdParser.ApplyKeyValueField | docstyle-pro_claude_v4/parser/md_parser.py:105-117 | a header line sets only the field it names; the other fields are left alone |
| MdParser.ParseLines | docstyle-pro_claude_v4/parser/md_parser.py:105-109 | there is one parsed key/value for each header line, in order |
| MdParser.ParseFrontmatter | docstyle-pro_claude_v4/parser/md_parser.py:95-121 | with no front matter: empty metadata and the unchanged text; otherwise the metadata folded from the header lines between the start Opening finds and the closing delimiter, and the text after the block |
| MdParser.ApplyLine | docstyle-pro_claude_v4/parser/md_parser.py:111-118 | one header line sets the field its key names and no other, as ApplyKeyValueField states for ApplyKeyValue |
| MdParser.FoldMetaUnset | docstyle-pro_claude_v4/parser/md_parser.py:99-117 | a field that no header line names stays "" |
| MdParser.FoldMetaLastAssignment | docstyle-pro_claude_v4/parser/md_parser.py:105-117 | the last header line that names a field decides it; earlier ones are overwritten |
| MdParser.BlankAfterOpeningSwallowed | docstyle-pro_claude_v4/parser/md_parser.py:81-121 | on `---`, a blank line, `---`, `title: X`, `---`, `body`, the blank line is swallowed, the second `---` becomes a header line, the title is `X` and the body is `body` |
| MdParser.BlankAfterOpeningDropsContent | docstyle-pro_claude_v4/parser/md_parser.py:81-121 | on `---`, a blank line, `---`, `# H`, `Text`, `---`, `More`, the heading and the text become header lines and only `More` is left as the body |
| MdParser.BlankAfterOpeningGivenBack | docstyle-pro_claude_v4/parser/md_parser.py:81-121 | on `---`, a blank line, `---`, `body`, no closing follows the swallowed line, so `\s*` gives it back: the header is the blank line and the body is `body` |
| MdParser.PlainValueReadsBack | docstyle-pro_claude_v4/parser/md_parser.py:106-109 | `key: value` with a lowercase key and a plain value parses back to exactly that pair |
| MdParser.KeyValueAtFirstColon | docstyle-pro_claude_v4/parser/md_parser.py:106-109 | the line is cut at its first colon; the key is trimmed and lower-cased, the value trimmed and unquoted |
| MdParser.FrontmatterRoundTrip | docstyle-pro_claude_v4/parser/md_parser.py:95-121 | rendered front matter with plain values is recognised, reads back as the same metadata, and gives back the body unchanged |
| MdParser.HeaderLinesReadBack | docstyle-pro_claude_v4/parser/md_parser.py:105-117 | the four rendered header lines fold back to the metadata they were written from |
| MdParser.Closed | docstyle-pro_claude_v4/parser/md_parser.py:157-158 | the open block is appended exactly when it is kept (it has lines or a tag other than body) |
| MdParser.HeadingLevel | docstyle-pro_claude_v4/parser/md_parser.py:83-85 | a heading line starts with 1 to 3 `#` and a space, and has text after them |
| MdParser.Tokenize | docstyle-pro_claude_v4/parser/md_parser.py:141-200 | the loop over the body's lines produces the blocks of the tokenizer's fold (TokenizeLines) |
| MdParser.RuleLineRule | docstyle-pro_claude_v4/parser/md_parser.py:190-195 | a `---` line opens an `hr` block only while the open block is an untagged body with no lines; anywhere else it is an ordinary line |
| MdParser.TokenizedBlocksKept | docstyle-pro_claude_v4/parser/md_parser.py:147-200 | no empty untagged block is ever returned |
| MdParser.PlainLinesFormOneBlock | docstyle-pro_claude_v4/parser/md_parser.py:147-197 | ordinary lines all land, right-trimmed and in order, in one untagged block |
| MdParser.NumberedHeadingRoundTrip | docstyle-pro_claude_v4/parser/md_parser.py:225-228 | `N. Title` gives an h1 element with number `N` and text `Title` |
| MdParser.UnnumberedHeading | docstyle-pro_claude_v4/parser/md_parser.py:225-229 | a heading that does not start with a digit keeps its text and gets the number `•` |
| MdParser.NonBlank | docstyle-pro_claude_v4/parser/md_parser.py:212 | the non-blank lines are a selection of the block's lines with nothing blank among them |
| MdParser.ConvertQa | docstyle-pro_claude_v4/parser/md_parser.py:257-269 | the `qa` loop computes the question and the answers of QaFrom |
| MdParser.QaAnswersInOrder | docstyle-pro_claude_v4/parser/md_parser.py:259-264 | every `A:` line that is not a question contributes its answer, in order, and nothing else does |
| MdParser.QaQuestionIsLast | docstyle-pro_claude_v4/parser/md_parser.py:259-262 | the last `Q:` line decides the question; with none it is "" |
| MdParser.Rows | docstyle-pro_claude_v4/parser/md_parser.py:300-326 | every table row has exactly the column count, and there are no more rows than lines |
| MdParser.CollectRows | docstyle-pro_claude_v4/parser/md_parser.py:303-306 | the row loop computes Rows |
| MdParser.TwoColumnRowIffBar | docstyle-pro_claude_v4/parser/md_parser.py:304-306 | a line gives a two-column row exactly when it contains a vertical bar |
| MdParser.RowCellsTrimmed | docstyle-pro_claude_v4/parser/md_parser.py:304 | no table cell starts or ends with whitespace |
| MdParser.ConvertBody | docstyle-pro_claude_v4/parser/md_parser.py:337-366 | the body loop with its bullet buffer computes BodyFrom |
| MdParser.BodyFromStep | docstyle-pro_claude_v4/parser/md_parser.py:342-359 | a bullet line joins the buffer; any other line flushes the buffer and adds its trimmed text when it is not blank |
| MdParser.BodyKeepsEveryLine | docstyle-pro_claude_v4/parser/md_parser.py:337-366 | the bullets elements hold every bullet item in order, and the body elements hold every other non-blank line, trimmed, in order |
| MdParser.BulletsNeverEmpty | docstyle-pro_claude_v4/parser/md_parser.py:348-364 | no bullets element is empty |
| MdParser.ConvertBlock | docstyle-pro_claude_v4/parser/md_parser.py:207-371 | `_convert_block` runs the `qa`, table and body loops and returns BlockElements |
| MdParser.BoundaryTagsIgnoreLines | docstyle-pro_claude_v4/parser/md_parser.py:215-222 | `[hr]`, `[empty]` and `[chapter_title]` give exactly one element and ignore the lines under them |
| MdParser.UnknownTagIsBody | docstyle-pro_claude_v4/parser/md_parser.py:368-371 | an unknown tag gives its trimmed text as one body element, or nothing when it is blank |
| MdParser.ImageOnlyWhenFileExists | docstyle-pro_claude_v4/parser/md_parser.py:281-297 | an image block gives an image element exactly when its first non-blank line names an existing file; otherwise a placeholder with the caption, or the file name when there is no caption |
| MdParser.ImageBase | docstyle-pro_claude_v4/parser/md_parser.py:402-404 | the image directory is the given one, or else the markdown file's own directory, always followed by "/"; directories are taken as already resolved |
| MdParser.ParseMd | docstyle-pro_claude_v4/parser/md_parser.py:378-430 | a missing file is the FileNotFound error and nothing else is; otherwise the parsed document |
| MdParser.MdReadsRenderedMeta | docstyle-pro_claude_v4/parser/md_parser.py:406-430 | parse_md of rendered front matter returns exactly that metadata and the elements of the body's blocks |
| MdParser.BodyFromKinds | docstyle-pro_claude_v4/parser/md_parser.py:337-366 | an untagged block yields only bullets and body elements |
| MdParser.BlockElementsNoCaption | docstyle-pro_claude_v4/parser/md_parser.py:207-371 | no block yields the caption element type |
| MdParser.ConvertAllNoCaption | docstyle-pro_claude_v4/parser/md_parser.py:417-421 | the markdown parser never emits a caption element |
| MdParser.TokenizeLine | docstyle-pro_claude_v4/parser/md_parser.py:147-200 | one round of the tokenizer loop takes the state where the tokenizer fold's step does |
| MdParser.ConvertBlocks | docstyle-pro_claude_v4/parser/md_parser.py:414-418 | the conversion loop of `parse_md` yields every block's elements, in block order |
| StructureAnalyzer.Collapse | python312_qt6/docstyle-pro_claude_v4/parser/structure_analyzer.py:110-111 | collapsing whitespace runs never lengthens the text |
| StructureAnalyzer.CollapseBlank | python312_qt6/docstyle-pro_claude_v4/parser/structure_analyzer.py:110-111 | the collapsed text is blank exactly when the original is |
| StructureAnalyzer.CollapseShape | python312_qt6/docstyle-pro_claude_v4/parser/structure_analyzer.py:110-111 | after collapsing, every whitespace character is a single space not followed by another |
| StructureAnalyzer.CleanTextEmpty | python312_qt6/docstyle-pro_claude_v4/parser/structure_analyzer.py:110-111 | a paragraph's clean text is empty exactly when its text is all whitespace |
| StructureAnalyzer.LargestIsMaximum | python312_qt6/docstyle-pro_claude_v4/parser/structure_analyzer.py:94 | `max` of a non-empty list is an element of it and no element exceeds it |
| StructureAnalyzer.FontSizeIsMaximum | python312_qt6/docstyle-pro_claude_v4/parser/structure_analyzer.py:79-94 | the font size is 0 with no explicit size, else the largest size of the runs and the paragraph mark |
| StructureAnalyzer.FontSizeHalfPoints | python312_qt6/docstyle-pro_claude_v4/parser/structure_analyzer.py:79-94 | the collecting loop computes that maximum |
| StructureAnalyzer.HeadingStyle | python312_qt6/docstyle-pro_claude_v4/parser/structure_analyzer.py:251-256 | a style name denotes heading level 0 to 3 |
| StructureAnalyzer.LabelColon | python312_qt6/docstyle-pro_claude_v4/parser/structure_analyzer.py:150 | the label pattern's match point is 0 or a position where `.{1,30}[:：]\s*(.+)` matches |
| StructureAnalyzer.LabelColonMax | python312_qt6/docstyle-pro_claude_v4/parser/structure_analyzer.py:150 | the match point is the largest one, the greedy choice of `.{1,30}` |
| StructureAnalyzer.ParsePromptLabel | python312_qt6/docstyle-pro_claude_v4/parser/structure_analyzer.py:145-153 | with no match the label is "" and the body is the whole text; a label is at most 30 characters |
| StructureAnalyzer.LabelColonIsLastColon | python312_qt6/docstyle-pro_claude_v4/parser/structure_analyzer.py:150 | with no colon after a matching position, the search stops there |
| StructureAnalyzer.PromptLabelRoundTrip | python312_qt6/docstyle-pro_claude_v4/parser/structure_analyzer.py:145-153 | `label: body` with a trimmed, colon-free label of 1 to 30 characters reads back as exactly that label and body |
| StructureAnalyzer.LabelLine | python312_qt6/docstyle-pro_claude_v4/parser/structure_analyzer.py:416 | a recognised label line gives a label of at most 30 characters |
| StructureAnalyzer.LastColon | python312_qt6/docstyle-pro_claude_v4/parser/structure_analyzer.py:416 | the index is that of a colon (ASCII or full-width) with no colon after it, or -1 |
| StructureAnalyzer.LabelLineOfLabel | python312_qt6/docstyle-pro_claude_v4/parser/structure_analyzer.py:416-418 | `label:` followed by any whitespace is recognised and gives the label back |
| StructureAnalyzer.ClassifyWith | python312_qt6/docstyle-pro_claude_v4/parser/structure_analyzer.py:160-279 | a paragraph is skipped exactly when it has no drawing and no text; an answer merges exactly when it follows a QA element; only the `ds-caption` style yields a caption |
| StructureAnalyzer.DrawingFirst | python312_qt6/docstyle-pro_claude_v4/parser/structure_analyzer.py:183-201 | a drawing wins over everything, text or not; it is an image only when its file was staged, else a placeholder with the text or "이미지" |
| StructureAnalyzer.DsStyleWins | python312_qt6/docstyle-pro_claude_v4/parser/structure_analyzer.py:207-245 | a `ds-*` style decides the type before headings, lists, sizes, boldness and indent |
| StructureAnalyzer.AnswerMerges | python312_qt6/docstyle-pro_claude_v4/parser/structure_analyzer.py:223-233 | `ds-qa-answer` after a QA element extends its answers; otherwise it opens a QA with no question |
| StructureAnalyzer.HeadingStyleWins | python312_qt6/docstyle-pro_claude_v4/parser/structure_analyzer.py:251-256 | a heading style decides the level whatever the size, boldness or indent |
| StructureAnalyzer.ListBeforeSize | python312_qt6/docstyle-pro_claude_v4/parser/structure_analyzer.py:255-257 | a list paragraph is a bullet fragment unless a style rung applies first |
| StructureAnalyzer.UnstyledRungs | python312_qt6/docstyle-pro_claude_v4/parser/structure_analyzer.py:259-283 | past the style and list rungs: H1 exactly for 28 pt and up, H2 for 24 to 28, H3 for 20 to 24 or short all-bold text, quote exactly for a left indent of 720 twips and up, body otherwise |
| StructureAnalyzer.IndentThresholdFinding | python312_qt6/docstyle-pro_claude_v4/parser/structure_analyzer.py:274-276 | a paragraph indented by one point is a quote as written, and body text with the threshold at 720 twips |
| StructureAnalyzer.MaxColumns | python312_qt6/docstyle-pro_claude_v4/parser/structure_analyzer.py:294 | the column count is the width of the widest row |
| StructureAnalyzer.TableFromKeepsRows | python312_qt6/docstyle-pro_claude_v4/parser/structure_analyzer.py:291-313 | a table is TABLE2 exactly when no row is wider than two cells; its data rows are the rows after the first, and header plus rows give back the cells when the header row is complete |
| StructureAnalyzer.StrippedCells | python312_qt6/docstyle-pro_claude_v4/parser/structure_analyzer.py:287-289 | there is one trimmed row per table row |
| StructureAnalyzer.ClassifyTable | python312_qt6/docstyle-pro_claude_v4/parser/structure_analyzer.py:286-313 | the loop trims every cell and then picks the layout of TableFrom |
| StructureAnalyzer.RunLength | python312_qt6/docstyle-pro_claude_v4/parser/structure_analyzer.py:325-332 | a run of fragments is at most the whole list and at least one long when the list starts with a fragment |
| StructureAnalyzer.RunLengthExact | python312_qt6/docstyle-pro_claude_v4/parser/structure_analyzer.py:325-332 | the run length is exactly the position of the first element that is not a fragment |
| StructureAnalyzer.MergeRuns | python312_qt6/docstyle-pro_claude_v4/parser/structure_analyzer.py:317-371 | `merge_bullet_runs` and `merge_conclusion_runs` compute MergedRuns |
| StructureAnalyzer.CollectRun | python312_qt6/docstyle-pro_claude_v4/parser/structure_analyzer.py:324-332 | the inner loop stops at the first element that is not a fragment and collects the texts of the run, in order |
| StructureAnalyzer.MergedRunsLeaveNoFragment | python312_qt6/docstyle-pro_claude_v4/parser/structure_analyzer.py:317-340 | no fragment of the merged kind survives the merge |
| StructureAnalyzer.MergedRunsNoop | python312_qt6/docstyle-pro_claude_v4/parser/structure_analyzer.py:317-340 | a list without fragments is left as it is |
| StructureAnalyzer.MergedRunsIdempotent | python312_qt6/docstyle-pro_claude_v4/parser/structure_analyzer.py:317-371 | merging twice changes nothing more |
| StructureAnalyzer.MergedRunsUnmerge | python312_qt6/docstyle-pro_claude_v4/parser/structure_analyzer.py:317-371 | expanding the merged elements gives back the input: the items are the fragment texts in order and the other elements keep their order |
| StructureAnalyzer.AbsorbCaptions | python312_qt6/docstyle-pro_claude_v4/parser/structure_analyzer.py:375-396 | the loop computes Absorbed |
| StructureAnalyzer.AbsorbedKeepsSkeleton | python312_qt6/docstyle-pro_claude_v4/parser/structure_analyzer.py:375-396 | absorption only removes caption fragments and changes captions; all other elements keep their order |
| StructureAnalyzer.AbsorbedLength | python312_qt6/docstyle-pro_claude_v4/parser/structure_analyzer.py:375-396 | the result is shorter by exactly the number of captions absorbed |
| StructureAnalyzer.AbsorbCaptionsOnePerImage | python312_qt6/docstyle-pro_claude_v4/parser/structure_analyzer.py:383-393 | one pass absorbs one caption per image, so an image followed by two captions shows that the pass is not idempotent |
| StructureAnalyzer.LabelsAbsorbedNotIdempotent | python312_qt6/docstyle-pro_claude_v4/parser/structure_analyzer.py:402-424 | a label line that strips to an empty label is dropped and leaves the prompt after it unlabelled, so a second pass takes the line before it as the label: absorbing prompt labels is not idempotent on arbitrary lists, though such a label line cannot come out of `_clean_text` |
| StructureAnalyzer.AbsorbPromptLabels | python312_qt6/docstyle-pro_claude_v4/parser/structure_analyzer.py:402-424 | the loop computes LabelsAbsorbed |
| StructureAnalyzer.LabelsAbsorbedKeepsSkeleton | python312_qt6/docstyle-pro_claude_v4/parser/structure_analyzer.py:402-424 | label absorption only removes body lines and sets prompt labels; all other elements keep their order |
| StructureAnalyzer.PromptTakesLabel | python312_qt6/docstyle-pro_claude_v4/parser/structure_analyzer.py:410-421 | an unlabelled prompt after a `label:` body line takes the label, and the line is removed |
| StructureAnalyzer.DsOutcome | python312_qt6/docstyle-pro_claude_v4/parser/structure_analyzer.py:214-245 | a `ds-*` paragraph always yields something; it extends the previous QA exactly for `ds-qa-answer` after a QA element, and otherwise emits an element of the style's type |
| DocxParser.BuildRelMap | python312_qt6/docstyle-pro_claude_v4/parser/docx_parser.py:43-51 | the loop over the relationships computes RelMapOf |
| DocxParser.LastImageRel | python312_qt6/docstyle-pro_claude_v4/parser/docx_parser.py:46-48 | the index is that of an image relationship with the id and no later one has it, or -1 |
| DocxParser.RelMapLookup | python312_qt6/docstyle-pro_claude_v4/parser/docx_parser.py:43-51 | an id is mapped exactly when some image relationship has it, and it maps to the file name of the last such relationship's target |
| DocxParser.LastElement | python312_qt6/docstyle-pro_claude_v4/parser/docx_parser.py:142-156 | there is a previous element exactly when something was appended |
| DocxParser.AnswerJoins | python312_qt6/docstyle-pro_claude_v4/parser/docx_parser.py:144-151 | an answer paragraph right after a QA element adds its text to that element and appends nothing |
| DocxParser.AnswerOpens | python312_qt6/docstyle-pro_claude_v4/parser/docx_parser.py:144-151 | an answer paragraph after anything but a QA element opens a new QA element with no question |
| DocxParser.BlankSkips | python312_qt6/docstyle-pro_claude_v4/parser/docx_parser.py:146-149 | a blank paragraph adds nothing and leaves the previous element as it is |
| DocxParser.AnswersMerge | python312_qt6/docstyle-pro_claude_v4/parser/docx_parser.py:142-151 | answer paragraphs after a QA element, with blank paragraphs between them, all land in that element in order |
| DocxParser.AnswerAfterTable | python312_qt6/docstyle-pro_claude_v4/parser/docx_parser.py:153-156 | a table becomes the previous element, so an answer right after it opens a new QA |
| DocxParser.BlockStepKeepsFront | python312_qt6/docstyle-pro_claude_v4/parser/docx_parser.py:144-156 | one block changes at most the last element and appends at most one |
| DocxParser.StepsKeepFront | python312_qt6/docstyle-pro_claude_v4/parser/docx_parser.py:142-156 | every element but the last is final once the next one is appended |
| DocxParser.RawElementsBound | python312_qt6/docstyle-pro_claude_v4/parser/docx_parser.py:142-156 | the raw list never has more elements than the document has blocks |
| DocxParser.FirstOfKind | python312_qt6/docstyle-pro_claude_v4/parser/docx_parser.py:76-77 | the index is that of the first element of the kind, or the length when there is none |
| DocxParser.FirstOfKindUnique | python312_qt6/docstyle-pro_claude_v4/parser/docx_parser.py:76-77 | the first index with the kind is unique |
| Text.BarFields | python312_qt6/docstyle-pro_claude_v4/parser/docx_parser.py:79 | splitting on the vertical bar gives at least one field |
| DocxParser.EnrichMeta | python312_qt6/docstyle-pro_claude_v4/parser/docx_parser.py:71-94 | the two loops compute Enriched |
| DocxParser.EnrichedKeeps | python312_qt6/docstyle-pro_claude_v4/parser/docx_parser.py:71-94 | enrichment never overwrites a non-empty title or chapter, never touches the author, and changes no element but the first chapter title, whose kind and text stay |
| DocxParser.EnrichedTitle | python312_qt6/docstyle-pro_claude_v4/parser/docx_parser.py:76-87 | an empty title becomes the first trimmed part of the first chapter title, and its third part, if any, becomes that element's sub |
| DocxParser.EnrichedChapter | python312_qt6/docstyle-pro_claude_v4/parser/docx_parser.py:82-94 | an empty chapter takes the chapter title's non-empty second part, else the first H1's text, else stays empty |
| DocxParser.Parse | python312_qt6/docstyle-pro_claude_v4/parser/docx_parser.py:115-175 | parse builds the relationship map, runs the block loop and the four passes, applies the chapter override and enriches the metadata: the result is Parsed, whose classification uses the corrected quote threshold of the Findings table |
| DocxParser.OverrideWins | python312_qt6/docstyle-pro_claude_v4/parser/docx_parser.py:166-168 | a chapter override always survives enrichment |
| DocxParser.ParsedKeepsCore | python312_qt6/docstyle-pro_claude_v4/parser/docx_parser.py:58-65 | a non-empty core title is kept, the author is the core author, and the staged images pass through |
| DocxParser.TitleFilledKeeps | python312_qt6/docstyle-pro_claude_v4/parser/docx_parser.py:76-87 | the chapter-title stage fills only empty title and chapter fields and changes no element but the first chapter title, whose kind and text stay |
| JsonBuilder.Lookup | docstyle-pro_claude_v4/bridge/json_builder.py:170-181 | a key is found exactly when some field has it |
| JsonBuilder.LookupAt | docstyle-pro_claude_v4/bridge/json_builder.py:170-181 | the first field with the key decides the lookup |
| JsonBuilder.StrListRoundTrip | docstyle-pro_claude_v4/bridge/json_builder.py:88-106 | a list of strings written to JSON reads back as itself |
| JsonBuilder.Serialize | docstyle-pro_claude_v4/bridge/json_builder.py:33-137 | every element serialises to a record whose first field is the string `type` tag |
| JsonBuilder.TypeTagIsTypeName | docstyle-pro_claude_v4/bridge/json_builder.py:39-137 | the `type` tag is the element's own tag name, except that a text element with an unhandled tag becomes `body` with its text, and a non-table2 table becomes `table3` |
| JsonBuilder.H1Num | docstyle-pro_claude_v4/bridge/json_builder.py:50-51 | an h1 record always has a `num`: the element's own, or `•` when it is empty |
| JsonBuilder.BodyIndent | docstyle-pro_claude_v4/bridge/json_builder.py:59-63 | a body record carries `indent` exactly when the indent is non-zero |
| JsonBuilder.PlaceholderCaption | docstyle-pro_claude_v4/bridge/json_builder.py:82-83 | a placeholder's text goes out under `caption`, and its record has no `text` |
| JsonBuilder.TableRecord | docstyle-pro_claude_v4/bridge/json_builder.py:117-129 | a table2 record has the two column titles and the rows; any other table has the headers and the rows; both read back as they were |
| JsonBuilder.ListsRoundTrip | docstyle-pro_claude_v4/bridge/json_builder.py:88-106 | the answers, lines and items lists read back as the element's own |
| JsonBuilder.BuildPayload | docstyle-pro_claude_v4/bridge/json_builder.py:144-181 | the loop serialises the elements one by one, in order, and assembles the payload |
| JsonBuilder.BuildJson | docstyle-pro_claude_v4/bridge/json_builder.py:144-188 | the returned text is the rendering of exactly that payload; with an output path the file holds that text and its parent directory exists, and without one the file system is unchanged |
| JsonBuilder.PayloadElements | docstyle-pro_claude_v4/bridge/json_builder.py:164-181 | the payload has its five keys in order, one record per element in element order with that element's type tag, and settings default to `{}` |
| JsonBuilder.PayloadIgnoresSubAndImages | docstyle-pro_claude_v4/bridge/json_builder.py:173-177 | the payload's metadata is the title, author and chapter only: the subtitle and the staged image map do not change it |
| MediaExtractor.ExtractImages | docstyle-pro_claude_v4/parser/image_extractor.py:24-90 | a missing file is FileNotFound and a file without the `PK` signature is NotADocx, both leaving the file system unchanged; otherwise the session directory is created, the supported images under `word/media/` are copied into it, and their map and the directory with a trailing `/` are returned |
| MediaExtractor.StageEntries | docstyle-pro_claude_v4/parser/image_extractor.py:70-87 | the entry loop writes each staged image to `outDir` under its file name, a later one overwriting an earlier, records it in the image map, and creates no directory |
| MediaExtractor.LastStaged | docstyle-pro_claude_v4/parser/image_extractor.py:70-87 | the index is that of a staged entry with the file name, or -1 |
| MediaExtractor.LastStagedIsLast | docstyle-pro_claude_v4/parser/image_extractor.py:70-87 | no staged entry after it has the same file name |
| MediaExtractor.StagedMapLookup | docstyle-pro_claude_v4/parser/image_extractor.py:70-87 | a file name is in the map exactly when some staged entry has it, and it maps to its path inside the session directory |
| MediaExtractor.JoinPathInjective | docstyle-pro_claude_v4/parser/image_extractor.py:81-82 | distinct file names give distinct paths inside one directory |
| MediaExtractor.StagedFilesLastWins | docstyle-pro_claude_v4/parser/image_extractor.py:81-87 | the staged copy of a file name holds the content of the last entry with that name: same-named entries overwrite one another |
| MediaExtractor.StagingStaysInside | docstyle-pro_claude_v4/parser/image_extractor.py:63-87 | every staged file lies inside the session directory, so nothing outside it changes |
| MediaExtractor.CleanupSession | docstyle-pro_claude_v4/parser/image_extractor.py:93-100 | an existing directory is removed with every file and directory inside it, and every other file and directory stays; otherwise nothing changes |
| MediaExtractor.SessionDirShape | docstyle-pro_claude_v4/parser/image_extractor.py:63-89 | the session directory is `temp_root/<id>`, never ends in `/`, and the returned base adds exactly one `/` |
| MediaExtractor.CleanupUndoesExtraction | docstyle-pro_claude_v4/parser/image_extractor.py:63-100 | extracting and then cleaning up the returned directory leaves every file outside the session directory as it was |
| Files.Names | docstyle-pro_claude_v4/parser/image_extractor.py:70 | `namelist()` gives the entry names in archive order |
| Files.ReadEntry | docstyle-pro_claude_v4/parser/image_extractor.py:84 | reading a name succeeds exactly when the archive lists it |
| Files.ReadEntryAppend | docstyle-pro_claude_v4/parser/image_extractor.py:84 | in a concatenation of entries the later part wins for the names it holds |
| Files.Outside | docstyle-pro_claude_v4/parser/image_extractor.py:93-100 | the files that are not inside a directory are exactly those kept by removing it |
| Files.FileSystem.WriteFile | docstyle-pro_claude_v4/parser/image_extractor.py:84-85 | writing a file creates or replaces it and changes nothing else |
| Files.FileSystem.MakeDir | docstyle-pro_claude_v4/parser/image_extractor.py:65 | `mkdir(exist_ok=True)` adds the directory and changes no file |
| Files.FileSystem.RemoveTree | docstyle-pro_claude_v4/parser/image_extractor.py:100 | `rmtree` removes the directory, everything inside it, and nothing else |
| ImageRecords.MediaNames | docstyle-pro_claude_v4/core/image_extractor.py:43-47 | the media names are a selection of the archive's names, each under `word/media/` and not a directory |
| ImageRecords.ExtOfEndsName | docstyle-pro_claude_v4/core/image_extractor.py:51 | the extension is empty, or it ends the file name after a dot and holds no dot itself |
| ImageRecords.Copied | docstyle-pro_claude_v4/core/image_extractor.py:49-65 | there is one record per media file |
| ImageRecords.SizedAll | docstyle-pro_claude_v4/core/image_extractor.py:87-93 | sizing keeps one record per image |
| ImageRecords.WithRelIds | docstyle-pro_claude_v4/core/image_extractor.py:111-112 | relationship lookup keeps one record per image |
| ImageRecords.Numbered | docstyle-pro_claude_v4/core/image_extractor.py:80-82 | numbering keeps one record per image |
| ImageRecords.Unnumbered | docstyle-pro_claude_v4/core/image_extractor.py:38-78 | there is one record per sorted media file before numbering |
| ImageRecords.MediaListNames | docstyle-pro_claude_v4/core/image_extractor.py:43-47 | every name in the media list is a media name of the archive |
| ImageRecords.SortedMedia | docstyle-pro_claude_v4/core/image_extractor.py:43-47 | the media names come out sorted |
| ImageRecords.CopyMedia | docstyle-pro_claude_v4/core/image_extractor.py:49-65 | the copy loop writes every media file into the output directory, records it, and creates no directory |
| ImageRecords.FillSizes | docstyle-pro_claude_v4/core/image_extractor.py:87-93 | the k-th record takes the k-th extent when there is one |
| ImageRecords.FillRelIds | docstyle-pro_claude_v4/core/image_extractor.py:97-112 | the base-name map of the `media/` relationships is built first, then each record looks up its file name |
| ImageRecords.AssignIds | docstyle-pro_claude_v4/core/image_extractor.py:80-82 | the id loop computes Numbered |
| ImageRecords.ExtractRecords | docstyle-pro_claude_v4/core/image_extractor.py:22-84 | the output directory is created first; a missing file or one that is not an archive is an error and writes nothing; otherwise the media are copied and the records returned |
| ImageRecords.NumberedIds | docstyle-pro_claude_v4/core/image_extractor.py:80-82 | the ids are `image1` to `imageN` in list order, so they are pairwise distinct |
| ImageRecords.RecordIds | docstyle-pro_claude_v4/core/image_extractor.py:22-84 | there is one record per media file, with distinct ids `image1` to `imageN` |
| ImageRecords.RecordSizes | docstyle-pro_claude_v4/core/image_extractor.py:68-72 | the k-th image takes the k-th extent when the document part exists and has that many extents; otherwise its size stays 0 |
| ImageRecords.LastMediaRel | docstyle-pro_claude_v4/core/image_extractor.py:101-106 | the index is that of a relationship with a `media/` target of that base name, or -1 |
| ImageRecords.MediaRelMapLookup | docstyle-pro_claude_v4/core/image_extractor.py:101-106 | the map gives, for a base name, the id of the last relationship targeting it, else "" |
| ImageRecords.RecordRelIds | docstyle-pro_claude_v4/core/image_extractor.py:74-78 | an image's relationship id is that of the last `media/` relationship with its file name, and "" when there is none or no relationships part |
| ImageRecords.RecordFiles | docstyle-pro_claude_v4/core/image_extractor.py:49-65 | each record names the base name of its media file, lies in the output directory under that name, and carries that name's extension |
| ImageRecords.UnnumberedKeepsFile | docstyle-pro_claude_v4/core/image_extractor.py:66-78 | sizing and relationship ids leave a record's name, path and extension alone |
| ImageInjector.RelIdIInjective | docstyle-pro_claude_v4/core/image_injector.py:200-203 | distinct counters give distinct `rIdI<n>` ids |
| ImageInjector.IssuedShrinks | docstyle-pro_claude_v4/core/image_injector.py:201-203 | moving the counter past a taken id leaves fewer taken ids ahead, so the search ends |
| ImageInjector.NextFree | docstyle-pro_claude_v4/core/image_injector.py:200-203 | the chosen counter is the first one at or after the start whose id is free |
| ImageInjector.Allocated | docstyle-pro_claude_v4/core/image_injector.py:199-211 | there is one relationship id per image |
| ImageInjector.AllocatedFresh | docstyle-pro_claude_v4/core/image_injector.py:196-211 | the allocated ids are pairwise distinct, none was taken before, and each has the `rIdI` form |
| ImageInjector.LastWithId | docstyle-pro_claude_v4/core/image_injector.py:124 | the index is that of the last image with the id, or -1 |
| ImageInjector.RecordedLookup | docstyle-pro_claude_v4/core/image_injector.py:205 | an image id maps to the relationship id of the last image carrying it; any other key keeps its value |
| ImageInjector.SkipTaken | docstyle-pro_claude_v4/core/image_injector.py:201-203 | the inner loop moves the counter to the first free id |
| ImageInjector.AddRelationships | docstyle-pro_claude_v4/core/image_injector.py:188-214 | the loop appends one relationship per allocated id and records the ids |
| ImageInjector.AddedRelationshipsSpec | docstyle-pro_claude_v4/core/image_injector.py:188-214 | one image relationship to `media/<filename>` is appended per image, in order, under ids that are distinct and new; every image id is recorded with a non-empty id |
| ImageInjector.NewDefaults | docstyle-pro_claude_v4/core/image_injector.py:232-239 | only `Default` entries are appended |
| ImageInjector.AddContentTypes | docstyle-pro_claude_v4/core/image_injector.py:228-241 | the loop computes NewDefaults and extends the set of added extensions |
| ImageInjector.NewDefaultsSpec | docstyle-pro_claude_v4/core/image_injector.py:228-241 | the appended entries carry their extension's MIME type, at most one per extension and none for an extension already known; afterwards every image's extension is known |
| ImageInjector.MarkerAt | docstyle-pro_claude_v4/core/image_injector.py:246 | a marker found is `[IMG:image` followed by digits and `]` |
| ImageInjector.ReplaceMarkerThenRest | docstyle-pro_claude_v4/core/image_injector.py:244-260 | a marker is replaced on its own and the scan resumes right after it |
| ImageInjector.ReplacementKnown | docstyle-pro_claude_v4/core/image_injector.py:248-258 | a marker whose image and relationship id are known never stays verbatim |
| ImageInjector.ReplacementUnknown | docstyle-pro_claude_v4/core/image_injector.py:251-253 | a marker whose image or relationship id is unknown stays verbatim |
| ImageInjector.ReplacementDrawing | docstyle-pro_claude_v4/core/image_injector.py:255-258 | a known marker becomes the drawing with the image's relationship id and size, a zero size replaced by the default, and the marker's number as drawing id |
| ImageInjector.ReplacePlainThenRest | docstyle-pro_claude_v4/core/image_injector.py:260 | text without `[` passes through unchanged |
| ImageInjector.ReplaceWithoutRelIds | docstyle-pro_claude_v4/core/image_injector.py:244-260 | with no relationship id to use, every marker stays and the document is unchanged |
| ImageInjector.MarkerOfImageId | docstyle-pro_claude_v4/core/image_injector.py:257 | the marker of the k-th record gets drawing id k + 1 |
| ImageInjector.StreamEntries | docstyle-pro_claude_v4/core/image_injector.py:141-157 | the copy loop computes Streamed |
| ImageInjector.StepKeepsOthers | docstyle-pro_claude_v4/core/image_injector.py:141-157 | one round writes at most one ordinary entry, named as the entry read, and keeps what was written |
| ImageInjector.StreamedKeepsOthers | docstyle-pro_claude_v4/core/image_injector.py:141-157 | every other part is carried over unchanged |
| ImageInjector.StreamedErrStays | docstyle-pro_claude_v4/core/image_injector.py:141-157 | once the copy loop stops at an error, that error is the outcome |
| ImageInjector.StreamedErrors | docstyle-pro_claude_v4/core/image_injector.py:147-155 | the copy loop stops only at a relationships or content-types part that does not parse |
| ImageInjector.StreamedWithoutRels | docstyle-pro_claude_v4/core/image_injector.py:147-150 | without a relationships part no relationship id is recorded |
| ImageInjector.StreamedRecordsAll | docstyle-pro_claude_v4/core/image_injector.py:147-150 | with a relationships part every image id is recorded with a non-empty id |
| ImageInjector.MediaAdded | docstyle-pro_claude_v4/core/image_injector.py:161-164 | at most one media entry is added per image |
| ImageInjector.AddMedia | docstyle-pro_claude_v4/core/image_injector.py:161-164 | the media loop computes MediaAdded |
| ImageInjector.MediaAddedSpec | docstyle-pro_claude_v4/core/image_injector.py:161-164 | the added entries are exactly the staged images whose part name is new, in order, each with its staged file's content |
| ImageInjector.CreatedRels | docstyle-pro_claude_v4/core/image_injector.py:217-225 | there is one relationship per image |
| ImageInjector.CreateRels | docstyle-pro_claude_v4/core/image_injector.py:217-225 | the loop computes CreatedRels |
| ImageInjector.BuildArchive | docstyle-pro_claude_v4/core/image_injector.py:131-175 | the archive is built as Injection describes |
| ImageInjector.TempOutUnder | docstyle-pro_claude_v4/core/image_injector.py:127-129 | the temporary archive lies inside the temporary directory |
| ImageInjector.InjectImages | docstyle-pro_claude_v4/core/image_injector.py:105-183 | without images the raw document is copied (a missing one is FileNotFound); otherwise the finished archive is written to the output path and the temporary directory is removed whatever happened |
| ImageInjector.InjectedDocument | docstyle-pro_claude_v4/core/image_injector.py:166-169 | the document part of the result is the source document with its markers replaced |
| ImageInjector.InjectedKeepsOthers | docstyle-pro_claude_v4/core/image_injector.py:141-157 | every part other than the document, relationships and content-types parts reads back exactly as in the source |
| ImageInjector.InjectedWithoutRels | docstyle-pro_claude_v4/core/image_injector.py:171-175 | without a relationships part the document is written back unchanged and the created part uses the `rId_<image id>` fallback ids |
| ImageInjector.IdMapHas | docstyle-pro_claude_v4/core/image_injector.py:124 | every image's id is a key of the id map |
| ImageInjector.InjectedReplacesMarkers | docstyle-pro_claude_v4/core/image_injector.py:131-169 | with a relationships part, the marker of every image becomes a drawing |
| ImageInjector.StreamOne | docstyle-pro_claude_v4/core/image_injector.py:141-157 | one round of the copy loop: the document part is held back, the relationships and content-types parts are rewritten or stop the loop with an error, any other part is copied |
| ImageInjector.PublishArchive | docstyle-pro_claude_v4/core/image_injector.py:177-183 | a built archive is copied to the output path with its parent directory created, an error is passed on, and the temporary directory is gone either way |
| LegacyDocxParser.FirstBoxFirst | docstyle-pro_claude_v4/core/docx_parser.py:34-38 | the box kind of the first row whose keyword matches is chosen, whatever later rows match |
| LegacyDocxParser.FirstBoxNone | docstyle-pro_claude_v4/core/docx_parser.py:34-38 | there is no box kind exactly when no keyword of any row matches |
| LegacyDocxParser.CautionBeforeWarning | docstyle-pro_claude_v4/core/docx_parser.py:22-38 | a text starting with the medical-warning keyword also starts with the caution keyword `⚠ `, which comes first: it is a caution box |
| LegacyDocxParser.RunLevelFirst | docstyle-pro_claude_v4/core/docx_parser.py:50-59 | the first run that is bold and at least 13 pt decides the heading level by its size |
| LegacyDocxParser.RunLevelNone | docstyle-pro_claude_v4/core/docx_parser.py:50-60 | the runs give no level exactly when no run is bold and at least 13 pt |
| LegacyDocxParser.PhaseStart | docstyle-pro_claude_v4/core/docx_parser.py:30 | `Phase` must start after an optional opening bracket, backslash and opening bracket |
| LegacyDocxParser.TitleStart | docstyle-pro_claude_v4/core/docx_parser.py:31 | the title starts within the whitespace after the dot, leaves at least one whitespace character before it, and is not at a newline |
| LegacyDocxParser.NumberSplitSound | docstyle-pro_claude_v4/core/docx_parser.py:31 | a split gives a numeral, the dot after it, and a non-empty single-line title |
| LegacyDocxParser.NumberSplitRoundTrip | docstyle-pro_claude_v4/core/docx_parser.py:123-130 | `N. Title`, followed by nothing or another line, splits back into `N` and `Title` |
| LegacyDocxParser.ParaBlock | docstyle-pro_claude_v4/core/docx_parser.py:94-146 | a paragraph gives at most one block |
| LegacyDocxParser.BlockOf | docstyle-pro_claude_v4/core/docx_parser.py:105-146 | a paragraph's stripped text gives at most one block |
| LegacyDocxParser.DrawingCount | docstyle-pro_claude_v4/core/docx_parser.py:98-104 | there are no more drawings than paragraphs |
| LegacyDocxParser.Blocks | docstyle-pro_claude_v4/core/docx_parser.py:94-146 | the paragraph blocks are no more than the paragraphs |
| LegacyDocxParser.TableBlocks | docstyle-pro_claude_v4/core/docx_parser.py:149-153 | the table blocks are no more than the tables |
| LegacyDocxParser.BlocksStep | docstyle-pro_claude_v4/core/docx_parser.py:94-104 | one more paragraph adds its block, and a drawing paragraph takes the next image number |
| LegacyDocxParser.ParagraphLoop | docstyle-pro_claude_v4/core/docx_parser.py:94-146 | the paragraph loop computes Blocks |
| LegacyDocxParser.TableLoop | docstyle-pro_claude_v4/core/docx_parser.py:149-153 | the table loop computes TableBlocks |
| LegacyDocxParser.ParseDocx | docstyle-pro_claude_v4/core/docx_parser.py:80-162 | parse_docx runs the paragraph loop, then the table loop, then takes the metadata |
| LegacyDocxParser.ParaBlockShape | docstyle-pro_claude_v4/core/docx_parser.py:94-146 | an image reference exactly for a drawing, no block exactly for blank text without one, every text block carries the stripped text, and a list item is exactly a list-styled paragraph that no earlier rule claims |
| LegacyDocxParser.ParaBlockImage | docstyle-pro_claude_v4/core/docx_parser.py:98-104 | a paragraph gives one image reference, under its number, exactly when it has a `w:drawing` child of the paragraph element |
| LegacyDocxParser.BlocksImageIds | docstyle-pro_claude_v4/core/docx_parser.py:94-104 | image references are numbered `image1, image2, ...` in paragraph order, one per drawing paragraph |
| LegacyDocxParser.BlocksHaveNoTables | docstyle-pro_claude_v4/core/docx_parser.py:94-146 | the paragraph blocks contain no table |
| LegacyDocxParser.TableBlocksSpec | docstyle-pro_claude_v4/core/docx_parser.py:67-75 | there is one table block per table with rows, and block j is built from the j-th table with rows: headers are its stripped first-row cells and rows its stripped later rows |
| LegacyDocxParser.WithRows | docstyle-pro_claude_v4/core/docx_parser.py:149-152 | the indices of the tables with rows, in increasing order, and every table with rows is among them |
| LegacyDocxParser.Empties | docstyle-pro_claude_v4/core/docx_parser.py:68-69 | the tables without rows are no more than the tables |
| LegacyDocxParser.ParsedLayout | docstyle-pro_claude_v4/core/docx_parser.py:80-162 | the content is the paragraph blocks followed by the table blocks; the title falls back to the file stem; the source file is the base name |
| Text.RunOf | python312_qt6/docstyle-pro_claude_v4/gui/structure_doctor.py:5 | the run is exactly the leading copies of the character: it is a prefix, made of that character, and what follows does not start with it |
| StructureDoctor.HeadingMatch | python312_qt6/docstyle-pro_claude_v4/gui/structure_doctor.py:5 | a heading line's level is capped to 1..5 |
| StructureDoctor.ScanHeadingsLoop | python312_qt6/docstyle-pro_claude_v4/gui/structure_doctor.py:8-28 | the scan loop, with its code-fence flag, computes ScanHeadings |
| StructureDoctor.ScannedLast | python312_qt6/docstyle-pro_claude_v4/gui/structure_doctor.py:12-26 | the last line adds a heading exactly when it is a heading line outside a code fence |
| StructureDoctor.ScannedSound | python312_qt6/docstyle-pro_claude_v4/gui/structure_doctor.py:8-28 | every reported heading is a heading line, and they are reported in increasing line order |
| StructureDoctor.ScannedComplete | python312_qt6/docstyle-pro_claude_v4/gui/structure_doctor.py:8-28 | every heading line outside a code fence is reported |
| StructureDoctor.ScannedLevels | python312_qt6/docstyle-pro_claude_v4/gui/structure_doctor.py:24 | every reported level lies in 1..5 |
| StructureDoctor.JumpIssues | python312_qt6/docstyle-pro_claude_v4/gui/structure_doctor.py:55-61 | there are fewer jump issues than headings |
| StructureDoctor.Dedup | python312_qt6/docstyle-pro_claude_v4/gui/structure_doctor.py:63 | the distinct names are exactly the names counted |
| StructureDoctor.Repeated | python312_qt6/docstyle-pro_claude_v4/gui/structure_doctor.py:64 | the repeated names are exactly those counted more than once |
| StructureDoctor.FirstWithKey | python312_qt6/docstyle-pro_claude_v4/gui/structure_doctor.py:68-76 | the index is that of the first heading with the name, or the count when none has it |
| StructureDoctor.DupItems | python312_qt6/docstyle-pro_claude_v4/gui/structure_doctor.py:67-76 | there is at most one item per duplicated name |
| StructureDoctor.LongLines | python312_qt6/docstyle-pro_claude_v4/gui/structure_doctor.py:79 | the long headings are a selection of the headings |
| StructureDoctor.LevelCount | python312_qt6/docstyle-pro_claude_v4/gui/structure_doctor.py:90 | a level count is at most the number of headings |
| StructureDoctor.Score | python312_qt6/docstyle-pro_claude_v4/gui/structure_doctor.py:92 | the score never exceeds 100 |
| StructureDoctor.JumpLoop | python312_qt6/docstyle-pro_claude_v4/gui/structure_doctor.py:55-61 | the jump loop computes JumpIssues |
| StructureDoctor.DupItemsLoop | python312_qt6/docstyle-pro_claude_v4/gui/structure_doctor.py:67-76 | the nested loop finds the first heading carrying each of the first six duplicated names |
| StructureDoctor.DupStage | python312_qt6/docstyle-pro_claude_v4/gui/structure_doctor.py:63-77 | the duplicate stage computes DupParts |
| StructureDoctor.InspectStructure | python312_qt6/docstyle-pro_claude_v4/gui/structure_doctor.py:31-108 | the inspection computes Inspect |
| StructureDoctor.InspectWithoutHeadings | python312_qt6/docstyle-pro_claude_v4/gui/structure_doctor.py:37-40 | with no heading there is exactly one issue, at line 1, and the score is 88 |
| StructureDoctor.InspectScore | python312_qt6/docstyle-pro_claude_v4/gui/structure_doctor.py:91-92 | the score is 100 less 12 per issue, and 0 exactly from nine issues on; the issue count matches the list |
| StructureDoctor.InspectFirstLevel | python312_qt6/docstyle-pro_claude_v4/gui/structure_doctor.py:42-53 | a first heading that is not H1 gives the first issue, at its line; otherwise there is no such issue |
| StructureDoctor.JumpIssuesAreJumps | python312_qt6/docstyle-pro_claude_v4/gui/structure_doctor.py:55-61 | the jump issues are exactly the rises of more than one level, in order; a decrease is never reported |
| StructureDoctor.InspectLevelsSum | python312_qt6/docstyle-pro_claude_v4/gui/structure_doctor.py:90-107 | the five level counts add up to the heading count |
| StructureDoctor.LevelCountsSum | python312_qt6/docstyle-pro_claude_v4/gui/structure_doctor.py:90 | the level counts of headings with levels 1..5 add up to their number |
| StructureDoctor.DupNamesSpec | python312_qt6/docstyle-pro_claude_v4/gui/structure_doctor.py:63-64 | a title is a duplicate exactly when two or more headings share its non-empty lower-cased key |
| Text.Repeat | python312_qt6/docstyle-pro_claude_v4/gui/structure_doctor.py:142 | the result is exactly the given number of copies of the character |
| StructureDoctor.Rewritten | python312_qt6/docstyle-pro_claude_v4/gui/structure_doctor.py:122-147 | the rewrite loop keeps one line per input line |
| StructureDoctor.Compacted | python312_qt6/docstyle-pro_claude_v4/gui/structure_doctor.py:149-159 | compaction never adds lines |
| StructureDoctor.FirstNonBlank | python312_qt6/docstyle-pro_claude_v4/gui/structure_doctor.py:163-166 | the index is that of the first non-blank line, or the count |
| StructureDoctor.TitleIndex | python312_qt6/docstyle-pro_claude_v4/gui/structure_doctor.py:162-171 | the title index is -1 or a line index |
| StructureDoctor.Promoted | python312_qt6/docstyle-pro_claude_v4/gui/structure_doctor.py:173-175 | promotion keeps the number of lines |
| StructureDoctor.RewriteLoop | python312_qt6/docstyle-pro_claude_v4/gui/structure_doctor.py:122-147 | the rewrite loop computes Rewritten |
| StructureDoctor.CompactLoop | python312_qt6/docstyle-pro_claude_v4/gui/structure_doctor.py:149-159 | the compaction loop computes Compacted, and its counter is the number of lines dropped |
| StructureDoctor.TitleSearch | python312_qt6/docstyle-pro_claude_v4/gui/structure_doctor.py:162-171 | the search loop computes TitleIndex |
| StructureDoctor.NormalizeStructure | python312_qt6/docstyle-pro_claude_v4/gui/structure_doctor.py:111-181 | normalisation computes Normalize, and it reports a change exactly when the text differs |
| StructureDoctor.CompactedNoDoubleBlank | python312_qt6/docstyle-pro_claude_v4/gui/structure_doctor.py:149-159 | after compaction no two consecutive lines are blank |
| StructureDoctor.PromotedNoDoubleBlank | python312_qt6/docstyle-pro_claude_v4/gui/structure_doctor.py:173-175 | the promoted title line is not blank, so blank lines stay apart |
| StructureDoctor.NormalizeSpec | python312_qt6/docstyle-pro_claude_v4/gui/structure_doctor.py:111-181 | the normalised text never holds two consecutive blank lines, the compaction count is the number of lines dropped, and a promoted title is the stripped first non-blank line, short and not list-like, of a text without headings |
| StructureDoctor.NormalHeadingFixed | python312_qt6/docstyle-pro_claude_v4/gui/structure_doctor.py:135-145 | a normal heading line matches with its own level and title and is rewritten unchanged |
| LayoutBuilder.Or | python312_qt6/docstyle-pro_claude_v4/engine/core/builder.js:124 | JavaScript logical or of `a` and `b` is truthy whenever `b` is |
| LayoutBuilder.ResolveLevel | python312_qt6/docstyle-pro_claude_v4/engine/core/builder.js:123-129 | a level other than normal is chosen only when the lower-cased setting names it |
| LayoutBuilder.ResolveLevelRoundTrip | python312_qt6/docstyle-pro_claude_v4/engine/core/builder.js:123-129 | naming a level in any letter case selects that level |
| LayoutBuilder.DefaultLevel | python312_qt6/docstyle-pro_claude_v4/engine/core/builder.js:123-134 | without a level setting the level is normal, and polishing is on unless `auto_polish` switches it off |
| LayoutBuilder.EnabledIff | python312_qt6/docstyle-pro_claude_v4/engine/core/builder.js:131-134 | polishing is off exactly when `auto_polish` is `false` or `"false"`, or the level is `off` |
| LayoutBuilder.ProfileOf | python312_qt6/docstyle-pro_claude_v4/engine/core/builder.js:47-75 | every profile has a positive element minimum and first-chunk size, and a lead minimum below its split minimum |
| LayoutBuilder.NonEmpty | python312_qt6/docstyle-pro_claude_v4/engine/core/builder.js:141 | `filter(Boolean)` keeps only non-empty sentences |
| LayoutBuilder.Gather | python312_qt6/docstyle-pro_claude_v4/engine/core/builder.js:147-152 | the sentence loop takes sentences from where it starts up to at most all of them |
| LayoutBuilder.SplitLongBodyText | python312_qt6/docstyle-pro_claude_v4/engine/core/builder.js:136-155 | the splitter with its loop computes SplitText |
| LayoutBuilder.JoinCut | python312_qt6/docstyle-pro_claude_v4/engine/core/builder.js:150-153 | the two joins with one space between them give the whole join |
| LayoutBuilder.GatherSpec | python312_qt6/docstyle-pro_claude_v4/engine/core/builder.js:147-152 | the chunk is the first sentences joined by single spaces; it stops at the first prefix that reaches the limit, or at the end |
| LayoutBuilder.SplitTextCut | python312_qt6/docstyle-pro_claude_v4/engine/core/builder.js:136-155 | a long text with two or more sentences is cut between sentences, and lead, space and remainder give back every sentence |
| LayoutBuilder.CountIn | python312_qt6/docstyle-pro_claude_v4/engine/core/builder.js:166-170 | a type count is at most the number of elements |
| LayoutBuilder.IsTextHeavyDocument | python312_qt6/docstyle-pro_claude_v4/engine/core/builder.js:157-174 | the counting loop computes TextHeavy |
| LayoutBuilder.CountsDisjoint | python312_qt6/docstyle-pro_claude_v4/engine/core/builder.js:160-170 | no element is both a text and a heavy element, so the two counts never exceed the length |
| LayoutBuilder.TextHeavyBounds | python312_qt6/docstyle-pro_claude_v4/engine/core/builder.js:158 | a sequence shorter than the profile's minimum is never text-heavy |
| LayoutBuilder.AutoPolishElements | python312_qt6/docstyle-pro_claude_v4/engine/core/builder.js:176-228 | the polish loop computes Polished |
| LayoutBuilder.BodyStage | python312_qt6/docstyle-pro_claude_v4/engine/core/builder.js:200-220 | the body branch calls the splitter and computes BodyPiece |
| LayoutBuilder.CountType | python312_qt6/docstyle-pro_claude_v4/engine/core/builder.js:184-189 | a type count is at most the number of elements |
| LayoutBuilder.PolishedH1Count | python312_qt6/docstyle-pro_claude_v4/engine/core/builder.js:178-189 | the loop's h1 counter is the number of h1 elements seen |
| LayoutBuilder.PolishedH1Divider | python312_qt6/docstyle-pro_claude_v4/engine/core/builder.js:184-191 | the k-th h1 is emitted as is, preceded by a divider with its text exactly when k reaches `insertDividerFromNthH1` |
| LayoutBuilder.PolishedDrops | python312_qt6/docstyle-pro_claude_v4/engine/core/builder.js:181-205 | non-object entries and blank bodies leave no trace in the output |
| LayoutBuilder.PolishedJustSaw | python312_qt6/docstyle-pro_claude_v4/engine/core/builder.js:179-224 | the `justSawHeading` flag holds exactly right after a heading |
| LayoutBuilder.PolishedLead | python312_qt6/docstyle-pro_claude_v4/engine/core/builder.js:207-210 | a non-blank body right after a heading and long enough becomes a lead, followed by a body with the remainder when there is one |
| LayoutBuilder.StepKept | python312_qt6/docstyle-pro_claude_v4/engine/core/builder.js:181-225 | one round adds the kept elements of the entry it reads, and no others |
| LayoutBuilder.PolishedKeepsOthers | python312_qt6/docstyle-pro_claude_v4/engine/core/builder.js:176-228 | every element other than bodies, leads and dividers passes through unchanged and in order |
| LayoutBuilder.UnknownPresetUnchanged | python312_qt6/docstyle-pro_claude_v4/engine/core/builder.js:117-121 | a key that names no preset, `template` included, leaves the theme as it is |
| LayoutBuilder.ParseInt | python312_qt6/docstyle-pro_claude_v4/engine/core/builder.js:454 | `parseInt` gives a number or NaN |
| LayoutBuilder.ParseIntRoundTrip | python312_qt6/docstyle-pro_claude_v4/engine/core/builder.js:454 | a decimal numeral, as a string or as a number, parses back to itself |
| LayoutBuilder.SpacingKeepsOthers | python312_qt6/docstyle-pro_claude_v4/engine/core/builder.js:461-466 | the spacing step touches only the line spacing and the justification |
| LayoutBuilder.BaseSizeScale | python312_qt6/docstyle-pro_claude_v4/engine/core/builder.js:453-460 | a base size s sets body, h1, h2 and h3 to s, s + 8, s + 4 and s + 2, whatever the preset said |
| LayoutBuilder.LineSpacingSet | python312_qt6/docstyle-pro_claude_v4/engine/core/builder.js:461-465 | after the merge the line spacing is truthy, or it is what the setting converted to |
| LayoutBuilder.EmptySettings | python312_qt6/docstyle-pro_claude_v4/engine/core/builder.js:448-466 | with no settings only the template preset and the default line spacing 384 apply |
| LayoutBuilder.Theme.ApplyStylePreset | python312_qt6/docstyle-pro_claude_v4/engine/core/builder.js:117-121 | the preset of the key is assigned over the theme |
| LayoutBuilder.Theme.MergeSettings | python312_qt6/docstyle-pro_claude_v4/engine/core/builder.js:448-466 | the preset and the settings are merged into the theme as Merged describes |
| LayoutBuilder.MarginsFor | python312_qt6/docstyle-pro_claude_v4/engine/core/builder.js:525-531 | every choice of margins leaves room on the A4 page |
| LayoutBuilder.MarginsPrecedence | python312_qt6/docstyle-pro_claude_v4/engine/core/builder.js:525-531 | a `wide` or `narrow` setting decides the margins whatever the theme; otherwise a MINIMAL or EDITORIAL theme has margins of its own |
| LayoutBuilder.ChapterEnd | python312_qt6/docstyle-pro_claude_v4/engine/core/builder.js:514-516 | the index is just past the first `chapter_title`, or the length |
| LayoutBuilder.Build | python312_qt6/docstyle-pro_claude_v4/engine/core/builder.js:443-531 | build merges the settings into the theme and lays out the elements as LayoutOf describes |
| LayoutBuilder.RouteSections | python312_qt6/docstyle-pro_claude_v4/engine/core/builder.js:507-521 | in an editorial theme elements go to the header section up to and including the first `chapter_title`, the rest to the body |
| LayoutBuilder.LayoutCovers | python312_qt6/docstyle-pro_claude_v4/engine/core/builder.js:507-521 | the two sections together hold every element, in order, and without two columns the body is empty |
| LayoutBuilder.DisabledKeepsElements | python312_qt6/docstyle-pro_claude_v4/engine/core/builder.js:470-475 | with polishing off the elements are laid out exactly as given |
| LayoutBuilder.Theme.ApplyFonts | python312_qt6/docstyle-pro_claude_v4/engine/core/builder.js:452-453 | a truthy `h_font` or `b_font` replaces the heading or body font, and nothing else changes |
| LayoutBuilder.Theme.ApplyBaseSize | python312_qt6/docstyle-pro_claude_v4/engine/core/builder.js:454-461 | a truthy `base_size` sets the body size and base size to it and the three heading sizes 8, 4 and 2 above it |
| LayoutBuilder.Theme.ApplySpacing | python312_qt6/docstyle-pro_claude_v4/engine/core/builder.js:462-467 | line spacing comes from the setting, else stays when set, else becomes 384; a defined `justify` replaces the justification |
| VaultIndexer.Paragraphs | python312_qt6/docstyle-pro_claude_v4/bridge/vault_indexer.py:35 | splitting always gives at least one piece |
| VaultIndexer.ParagraphsCount | python312_qt6/docstyle-pro_claude_v4/bridge/vault_indexer.py:35 | there is one piece more than separator runs, and every run has at least two newlines |
| VaultIndexer.ParagraphsRoundTrip | python312_qt6/docstyle-pro_claude_v4/bridge/vault_indexer.py:35 | splitting loses nothing but the separators: putting the runs back between the pieces gives the text again |
| VaultIndexer.ParagraphsNoBlankLine | python312_qt6/docstyle-pro_claude_v4/bridge/vault_indexer.py:35 | no piece contains a blank-line separator, and the first piece starts the text |
| VaultIndexer.Stripped | python312_qt6/docstyle-pro_claude_v4/bridge/vault_indexer.py:38 | the chunks are no more than the pieces |
| VaultIndexer.StrippedAppend | python312_qt6/docstyle-pro_claude_v4/bridge/vault_indexer.py:38 | filtering distributes over concatenation, so chunks keep the order of their pieces |
| VaultIndexer.StrippedSound | python312_qt6/docstyle-pro_claude_v4/bridge/vault_indexer.py:38 | every chunk is stripped, longer than the minimum, and the stripped form of some piece |
| VaultIndexer.StrippedComplete | python312_qt6/docstyle-pro_claude_v4/bridge/vault_indexer.py:38 | a piece whose stripped form is long enough gives a chunk |
| VaultIndexer.StrippedNoBlankLine | python312_qt6/docstyle-pro_claude_v4/bridge/vault_indexer.py:38 | chunks of separator-free pieces are separator-free |
| VaultIndexer.ChunkMarkdownSpec | python312_qt6/docstyle-pro_claude_v4/bridge/vault_indexer.py:29-42 | chunks are stripped, non-empty and free of blank-line separators, and every non-blank paragraph gives one |
| VaultIndexer.CoreChunksAreLongDesktopChunks | docstyle-pro_claude_v4/bridge/vault_indexer.py:34 | filtering at ten characters keeps exactly the chunks of the unfiltered chunker that are longer than ten |
| VaultIndexer.CoreChunkMarkdown | docstyle-pro_claude_v4/bridge/vault_indexer.py:25-38 | the core chunker keeps the desktop chunker's chunks longer than ten characters, in the same order |
| VaultIndexer.Records | python312_qt6/docstyle-pro_claude_v4/bridge/vault_indexer.py:70-78 | there is one record per chunk |
| VaultIndexer.RecordsSpec | python312_qt6/docstyle-pro_claude_v4/bridge/vault_indexer.py:66-78 | record i carries chunk i, the source path and the file name, and no two records share an id |
| VaultIndexer.ChunkIdInjective | python312_qt6/docstyle-pro_claude_v4/bridge/vault_indexer.py:71 | distinct chunk numbers give distinct ids |
| VaultIndexer.RecordIdsByName | python312_qt6/docstyle-pro_claude_v4/bridge/vault_indexer.py:71 | the ids depend on the file name only: two paths with the same file name get the same ids |
| VaultIndexer.IndexDocumentSpec | python312_qt6/docstyle-pro_claude_v4/bridge/vault_indexer.py:44-77 | nothing is indexed exactly when the file name does not end in `.md` or the file is missing or unreadable; otherwise there is one record per chunk, holding that chunk, the path and an id from the file name and chunk number, and the ids are pairwise distinct |
| SettingsPanel.ParseLevel | python312_qt6/docstyle-pro_claude_v4/gui/settings_panel.py:362-368 | a text is accepted as a level only when it is that level's name |
| SettingsPanel.ParseLevelRoundTrip | python312_qt6/docstyle-pro_claude_v4/gui/settings_panel.py:362-368 | level names and parsing are inverse, and exactly `weak`, `normal` and `strong` are accepted |
| SettingsPanel.TemplateId | python312_qt6/docstyle-pro_claude_v4/gui/settings_panel.py:34-85 | a template id is at least two digits |
| SettingsPanel.TemplateIdInjective | python312_qt6/docstyle-pro_claude_v4/gui/settings_panel.py:34-85 | distinct template numbers have distinct ids |
| SettingsPanel.TemplateIdsDistinct | python312_qt6/docstyle-pro_claude_v4/gui/settings_panel.py:34-85 | no two template numbers share an id |
| SettingsPanel.DefaultLevelsAt | python312_qt6/docstyle-pro_claude_v4/gui/settings_panel.py:34-85 | the default table maps the id of each template 1..50 to its level |
| SettingsPanel.DefaultLevelsKeys | python312_qt6/docstyle-pro_claude_v4/gui/settings_panel.py:34-85 | the default table holds the fifty ids "01" to "50" and nothing else |
| SettingsPanel.NormalizeId | python312_qt6/docstyle-pro_claude_v4/gui/settings_panel.py:364-366 | an id is stripped, and one made only of digits is padded to at least two digits |
| SettingsPanel.NormalizeIdPads | python312_qt6/docstyle-pro_claude_v4/gui/settings_panel.py:365-366 | a single digit gains a leading zero |
| SettingsPanel.NormalizeIdIdempotent | python312_qt6/docstyle-pro_claude_v4/gui/settings_panel.py:364-366 | normalising twice changes nothing more |
| SettingsPanel.NormalizeNumber | python312_qt6/docstyle-pro_claude_v4/gui/settings_panel.py:374-376 | any decimal spelling of a template number finds that template's id |
| SettingsPanel.MergedLookup | python312_qt6/docstyle-pro_claude_v4/gui/settings_panel.py:362-369 | an id is in the merged table exactly when it was a default or an accepted entry set it; the last accepted entry decides, else the default |
| SettingsPanel.LoadWithoutObject | python312_qt6/docstyle-pro_claude_v4/gui/settings_panel.py:347-360 | a missing file, unreadable JSON or a value that is not an object gives the defaults unchanged |
| SettingsPanel.RejectedEntryIgnored | python312_qt6/docstyle-pro_claude_v4/gui/settings_panel.py:367-369 | an entry with a blank id or a level other than weak, normal or strong changes nothing |
| SettingsPanel.LoadKeepsDefaults | python312_qt6/docstyle-pro_claude_v4/gui/settings_panel.py:347-371 | entries never remove a template: every default id stays |
| SettingsPanel.LoadTemplateLevelMap | python312_qt6/docstyle-pro_claude_v4/gui/settings_panel.py:347-371 | the override loop computes LoadLevelMap |
| SettingsPanel.Recommend | python312_qt6/docstyle-pro_claude_v4/gui/settings_panel.py:373-377 | the recommendation is the table's level for the normalised id, or normal when the table lacks it |
| SettingsPanel.RecommendDefault | python312_qt6/docstyle-pro_claude_v4/gui/settings_panel.py:373-377 | with the default table, template n written plain or padded gets its level, and an id not in the table gets normal |
| SettingsPanel.RecommendOverride | python312_qt6/docstyle-pro_claude_v4/gui/settings_panel.py:347-377 | ids and file keys are normalised the same way, so the last accepted entry for an id decides its recommendation |
| SettingsPanel.Resolve | python312_qt6/docstyle-pro_claude_v4/gui/settings_panel.py:289-305 | polishing is off exactly for the `끄기` mode; an enabled level is a real level; any other text yields the recommendation |
| SettingsPanel.ResolveModes | python312_qt6/docstyle-pro_claude_v4/gui/settings_panel.py:296-305 | every fixed mode yields its level whatever the template recommends; the template mode yields the recommendation |
| SettingsPanel.FontChoice | python312_qt6/docstyle-pro_claude_v4/gui/settings_panel.py:390-396 | a font is "" exactly when it names a default entry, else the font itself |
| SettingsPanel.BaseSizeChoice | python312_qt6/docstyle-pro_claude_v4/gui/settings_panel.py:398-399 | the size text is "" exactly for sizes up to 8 |
| SettingsPanel.BaseSizeRoundTrip | python312_qt6/docstyle-pro_claude_v4/gui/settings_panel.py:399 | a chosen size reads back as the same number |
| SettingsPanel.FirstTokenSpec | python312_qt6/docstyle-pro_claude_v4/gui/settings_panel.py:404 | `split()[0]` is the first maximal run of non-whitespace, and there is none exactly when the text is all whitespace |
| SettingsPanel.LineSpacingChoice | python312_qt6/docstyle-pro_claude_v4/gui/settings_panel.py:401-404 | line spacing is "" for a default entry, else the entry's first token |
| SettingsPanel.MarginChoice | python312_qt6/docstyle-pro_claude_v4/gui/settings_panel.py:406-413 | the margin value is one of `narrow`, `wide`, `default` |
| SettingsPanel.StyleChoice | python312_qt6/docstyle-pro_claude_v4/gui/settings_panel.py:415-424 | the style preset is one of the five the builder knows |
| SettingsPanel.ChoicesRoundTrip | python312_qt6/docstyle-pro_claude_v4/gui/settings_panel.py:406-424 | each margin value and style preset is reached from exactly its own combo entry |
| SettingsPanel.SettingsOf | python312_qt6/docstyle-pro_claude_v4/gui/settings_panel.py:385-444 | there are no settings exactly when the line-spacing text has no token, where `split()[0]` raises |
| SettingsPanel.SettingsValues | python312_qt6/docstyle-pro_claude_v4/gui/settings_panel.py:385-444 | the settings use only values the builder knows, polishing is on exactly when the level is not off, the size reads back, and the texts carry no surrounding whitespace |
| SettingsPanel.MergedNormalized | python312_qt6/docstyle-pro_claude_v4/gui/settings_panel.py:362-369 | loaded tables hold only normalised ids |
| SettingsPanel.DefaultsNormalized | python312_qt6/docstyle-pro_claude_v4/gui/settings_panel.py:34-85 | the default ids are normalised |
| SettingsPanel.RecommendStored | python312_qt6/docstyle-pro_claude_v4/gui/settings_panel.py:373-377 | in a table of normalised ids every stored level is reached through its own id |
| SettingsPanel.Panel.constructor | python312_qt6/docstyle-pro_claude_v4/gui/settings_panel.py:87-90 | the panel starts with the loaded table and the recommendation normal |
| SettingsPanel.Panel.SetTemplateAutoPolishHint | python312_qt6/docstyle-pro_claude_v4/gui/settings_panel.py:379-383 | only the recommendation changes, to the template's recommended level |
| SettingsPanel.Panel.GetSettings | python312_qt6/docstyle-pro_claude_v4/gui/settings_panel.py:385-444 | the settings are SettingsOf the widget values and the current recommendation |
| Shipping.RemoveAll | python312_qt5/yeson_shipping/date_v9.6.py:295 | removing a pattern never lengthens the text |
| Shipping.MovBase | python312_qt5/yeson_shipping/date_v9.6.py:291-295 | a name whose only `.mov` is its extension loses exactly the extension |
| Shipping.KeyOfWordsNone | python312_qt5/yeson_shipping/date_v9.6.py:298-308 | there is no key exactly when no word is a take word or a `v` plus three digits version word |
| Shipping.KeyOfWordsFirst | python312_qt5/yeson_shipping/date_v9.6.py:299-308 | the first qualifying word decides the key, whatever follows it |
| Shipping.GroupKeyStable | python312_qt5/yeson_shipping/date_v9.6.py:299-308 | every key names a take, and a key is its own key |
| Shipping.KeyIndex | python312_qt5/yeson_shipping/date_v9.6.py:299-308 | the key comes from a qualifying word of the name |
| Shipping.FindGroupKey | python312_qt5/yeson_shipping/date_v9.6.py:298-308 | the word loop, stopping at the first qualifying word, computes GroupKey |
| Shipping.GatherScenes | python312_qt5/yeson_shipping/date_v9.6.py:310-315 | the scene list is exactly the ungrouped `.mov` names in encounter order |
| Shipping.GatherGroup | python312_qt5/yeson_shipping/date_v9.6.py:310-313 | a key has a group exactly when some name has that key, and the group is exactly those names in encounter order |
| Shipping.GatherKeysDistinct | python312_qt5/yeson_shipping/date_v9.6.py:311-312 | each key is listed once |
| Shipping.GatherKeysIn | python312_qt5/yeson_shipping/date_v9.6.py:311-313 | every listed key has a group |
| Shipping.GatherFolders | python312_qt5/yeson_shipping/date_v9.6.py:287-315 | the folder loops compute Gather over all folder contents in order |
| Shipping.RoundUp4 | python312_qt5/yeson_shipping/date_v9.6.py:328 | the row loop's end is the least multiple of four not below the count |
| Shipping.ChunkAt | python312_qt5/yeson_shipping/date_v9.6.py:328-329 | row j holds names 4j up to 4j + 4, or to the end |
| Shipping.ChunksConcat | python312_qt5/yeson_shipping/date_v9.6.py:328-330 | the rows put back together are the names |
| Shipping.RowsSpec | python312_qt5/yeson_shipping/date_v9.6.py:328-330 | every row holds one to four names, every row but the last exactly four, and the rows in order hold all the names in order |
| Shipping.AppendRows | python312_qt5/yeson_shipping/date_v9.6.py:328-330 | the row loop appends the rows' text |
| Shipping.SectionsOf | python312_qt5/yeson_shipping/date_v9.6.py:324-331 | there is one section per key |
| Shipping.SectionsOfAt | python312_qt5/yeson_shipping/date_v9.6.py:324-325 | section i has key i and that key's names sorted |
| Shipping.TakeSections | python312_qt5/yeson_shipping/date_v9.6.py:324-325 | there is one take section per key |
| Shipping.SectionsOrdered | python312_qt5/yeson_shipping/date_v9.6.py:324 | sections come in strictly increasing key order |
| Shipping.SectionItems | python312_qt5/yeson_shipping/date_v9.6.py:325-327 | each section lists exactly the names of its key, sorted, and is never empty |
| Shipping.SectionFor | python312_qt5/yeson_shipping/date_v9.6.py:310-327 | every name with a key is listed under a section |
| Shipping.AppendSection | python312_qt5/yeson_shipping/date_v9.6.py:326-331 | one pass of the key loop appends the heading, the rows and a gap |
| Shipping.AppendScenes | python312_qt5/yeson_shipping/date_v9.6.py:334-338 | the scene block is appended |
| Shipping.AppendSections | python312_qt5/yeson_shipping/date_v9.6.py:324-331 | the key loop appends every section in order |
| Shipping.CreateList | python312_qt5/yeson_shipping/date_v9.6.py:282-340 | create_list computes ListText: nothing without folders, else the four header lines (environment, jobs, episode type `Retake` or `본편`, and the selected date or else today's) and an empty line, then the take sections and the scenes |
| Shipping.JoinThenSplit | python312_qt5/yeson_shipping/date_v9.6.py:1633 | splitting a comma-joined list of comma-free names gives the names back |
| Shipping.VisibilitySpec | python312_qt5/yeson_shipping/date_v9.6.py:1624-1633 | the visibility is `private` exactly in the private cases; otherwise it reads back as the ticked departments in order |
| Shipping.CheckedNamesSpec | python312_qt5/yeson_shipping/date_v9.6.py:1628-1632 | a department is listed exactly when its box is ticked |
| Shipping.Without | python312_qt5/yeson_shipping/date_v9.6.py:3397 | removing a character leaves none of it |
| Shipping.WithoutAppend | python312_qt5/yeson_shipping/date_v9.6.py:3397 | removing a character distributes over concatenation |
| Shipping.UnbracketedAppend | python312_qt5/yeson_shipping/date_v9.6.py:3397 | removing brackets distributes over concatenation |
| Shipping.FindListFileNone | python312_qt5/yeson_shipping/date_v9.6.py:3418-3440 | nothing is shown exactly when no file matches |
| Shipping.FindListFileFirst | python312_qt5/yeson_shipping/date_v9.6.py:3418-3440 | the file shown is the first matching one |
| Shipping.UnbracketedTitle | python312_qt5/yeson_shipping/date_v9.6.py:1622 | removing the brackets of a generated title leaves program, code and tag |
| Shipping.FirstTwoWords | python312_qt5/yeson_shipping/date_v9.6.py:3397-3402 | the first two words of such a title are the program and the code |
| Shipping.GeneratedEnvName | python312_qt5/yeson_shipping/date_v9.6.py:1622 | a generated event title gives back the environment `program-prefixnumber` |
| Shipping.RetakeTitle | python312_qt5/yeson_shipping/date_v9.6.py:1619-1622 | a retake-only title is recognised as a retake |
| Shipping.SavedListMatches | python312_qt5/yeson_shipping/date_v9.6.py:358-359 | the list saved for a generated event's environment and date always passes the date and name test, so whether it is shown rests on the take rule alone |
| Shipping.MarksSpec | python312_qt5/yeson_shipping/date_v9.6.py:2808-2813 | a date is marked exactly when one of its rows has events, and marked done exactly when one of its rows has all its events completed |
| Shipping.CompletedHaveEvents | python312_qt5/yeson_shipping/date_v9.6.py:2810-2813 | every date marked done is also marked as having events |
| Shipping.MarkDates | python312_qt5/yeson_shipping/date_v9.6.py:2805-2813 | the row loop computes both sets of dates |
| Text.SplitJoin | python312_qt5/yeson_shipping/date_v9.6.py:299 | joining the pieces of `s.split(c)` with `c` gives `s` back |
| Text.SplitPiecesLackSep | python312_qt5/yeson_shipping/date_v9.6.py:299 | no piece of `s.split(c)` contains the separator |
| Text.SplitCount | python312_qt5/yeson_shipping/date_v9.6.py:299 | `s.split(c)` has two or more pieces exactly when `c` occurs in `s` |
| Text.StripFacts | python312_qt6/docstyle-pro_claude_v4/gui/settings_panel.py:364 | `strip()` never lengthens a string and leaves no whitespace at either end |
| Text.LStripSpec | docstyle-pro_claude_v4/parser/md_parser.py:110 | `lstrip()` removes exactly the leading whitespace and keeps the rest as a suffix |
| Text.RStripSpec | docstyle-pro_claude_v4/parser/md_parser.py:110 | `rstrip()` removes exactly the trailing whitespace and keeps the rest as a prefix |
| Text.WordsCons | python312_qt6/docstyle-pro_claude_v4/gui/settings_panel.py:404 | `split()` takes a non-blank run ended by whitespace or the end as the first word |
| Text.SortStrings | python312_qt5/yeson_shipping/date_v9.6.py:324-325 | `sorted()` of strings is an ordered permutation of its input |
| Text.LexTotal | python312_qt5/yeson_shipping/date_v9.6.py:324-325 | any two strings are comparable in code-point order |
| Text.LexTrans | python312_qt5/yeson_shipping/date_v9.6.py:324-325 | code-point order is transitive |
| Text.DigitsValueOfNatToString | python312_qt6/docstyle-pro_claude_v4/parser/docx_parser.py:197 | `str(n)` is decimal digits whose value is `n` |
| Text.NatToStringInjective | python312_qt6/docstyle-pro_claude_v4/parser/docx_parser.py:197 | distinct numbers have distinct decimal texts |

## Left out

- Regular expressions are modelled as scanners in which `\s` is one of the six ASCII whitespace characters space, tab, newline, carriage return, vertical tab and form feed, and `\d` is an ASCII digit. `strip`, `split` and JavaScript `trim` use the same six characters: Python's `\x1c` to `\x1f` and non-ASCII whitespace are not modelled. `lower`, `upper`, `isdigit` and `toLowerCase` are ASCII only. Lengths are counted in characters.
- `splitlines` is modelled as a split on `\n` alone.
- `[hr]`, `[empty]` and `[chapter_title]` swallow the lines that follow them in the same block (md_parser.py:215-222), so bullets written under them are lost (`MdParser.BoundaryTagsIgnoreLines`).
- `absorb_captions` and `absorb_prompt_labels` are not idempotent. On an image followed by two captions a second caption pass changes the result (`StructureAnalyzer.AbsorbCaptionsOnePerImage`), and a blank label line lets a second label pass label a prompt (`StructureAnalyzer.LabelsAbsorbedNotIdempotent`). The second case needs a body text such as `  :`, which `_clean_text` never produces, so it cannot arise through `parse`.
- The third keyword of the legacy parser's quote-box test is not legible in the source. Only the other two keywords are modelled.
- Opening the Word document, reading XML and serialising XML are not modelled. A document is given as its package entries and paragraph records.
- `os.path.exists` checks on directories and the creation of parent directories are not modelled. `ImageRecords.ExtractRecords` creates the output directory before it detects a bad zip file, as the code does.
- The text of the injector's messages and the serialisation of the rewritten XML are not modelled.
- `ImageInjector.InjectedWithoutRels`: with no relationships part, the image markers stay in the document. This is what the code does, not a fix.
- Floating-point arithmetic in the layout builder is modelled as exact rational comparison.
- The `LINE_SPACING` conversion is a `twips` parameter.
- The sentence splitter is a `sentencesOf` parameter.
- A truthy text value that is not a string would throw in JavaScript. This case is not modelled.
- Construction of the docx objects (cover, table of contents, `convertElement`, sections) is left out. So are build entries that are not objects and the failed `Array.isArray` check.
- Polishing levels are a datatype. Configuration values are taken as their `str()` text. Duplicate keys in the JSON configuration are taken in entry order, last one winning.
- The settings preview label (settings_panel.py lines 307-344) is not modelled.
- `SettingsPanel.Panel.GetSettings` drops the mode string of the returned tuple. The Qt widgets are modelled as a `Widgets` value.
- Python `sorted` on strings is modelled as code-point order (`Text.LexLe`).
- A folder listing is given as a sequence of content lists.
- `datetime.now` is the `today` parameter. A `QDate` is modelled as its date string.
- `open_list_file` is modelled without its read errors, without the three base directories (a listing is given instead) and without the file dialog.
- `save_file` is modelled up to the file name. Writing the file and creating its directories are left out.
- The message boxes, `update_prefix`, the toggle UI and the SQL queries of the shipping tool are left out. The description field returned by `get_event_data` is passed through unchanged.
- The vector store, its locking, the deletion of old chunks, the printed read error and `query_vault` are left out. The suffix check and the read are modelled by `VaultIndexer.IndexDocument`, where a missing or unreadable file is a `None` content.
- MdParser.ImageBase: `Path(...).resolve()` is not modelled. Directories are taken as already resolved: absolute, normalised and without a trailing slash. For a relative `imgs/` the model gives `imgs//`, where the code gives the absolute directory followed by one slash.
- MdParser.ParseMd: the markdown path and the image directory are taken as already resolved, as for `MdParser.ImageBase`.
- MediaExtractor.ExtractImages: the `.docx` path and the temporary root are taken as already resolved. `resolve()` is not modelled, and the session name is a parameter.
- DocxParser.Parse: classifies with the corrected quote threshold of the Findings table (457200 EMU). An unstyled paragraph indented 720 to 457199 EMU is body here and a quote in the code; `StructureAnalyzer.ClassifyAsWritten` is the code's classification.
- JsonBuilder.BuildJson: the text `json.dumps(..., ensure_ascii=False, indent=2)` produces is the `dumps` parameter, so the JSON text format is not modelled. Creating the parent's own parents is not modelled.
- LegacyDocxParser.ParaBlock: `hasDrawing` is the result of `_has_image`, which looks for `w:drawing` among the direct children of the paragraph element only. The XML is not modelled. Word normally places a drawing inside a run, where this test does not find it.
- `VaultIndexer.RecordIdsByName`: two notes with the same file name in different folders produce the same record ids. The lemma states this behaviour of the code.
- `Shipping.SavedListMatches`: the saved list of a retake event is found only if its file name contains `tk` or `take`. The lemma states this behaviour of the code.

## Findings

| source | as written | input that shows it | evidently intended | confidence | as-written member | corrected member |
|---|---|---|---|---|---|---|
| python312_qt6/docstyle-pro_claude_v4/parser/structure_analyzer.py:275 | `indent >= 720`, where `indent` is python-docx `left_indent` (lines 95-100), a length in EMU | a plain paragraph indented 12700 EMU (one point) is classed as a quote | a threshold of 720 twips, which is 457200 EMU | not executed | StructureAnalyzer.IndentThresholdFinding | StructureAnalyzer.UnstyledRungs |
