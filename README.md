# XML prompt editor core, modelled in Dafny

This project models the core logic of an XML prompt editor, a web page on which users write prompts as small XML documents. The model covers:

- **The validation panel** (`validateXML`): an ordered list of findings.
  - Five checks that depend on the browser's XML parser: parse error, `prompt` root, and the `system`, `input` and `output` elements.
  - One error for every tag the tag-balance scan (`findUnclosedTags`) reports.
  - One warning for every attribute the attribute check (`findInvalidAttributes`) rejects.
  - The panel's badges show "has errors / warnings / info" and the three counts.
- **The editor's "Format" action** (`formatXMLString`):
  - a whitespace pre-pass;
  - a tokeniser that splits the text into tags and text runs;
  - an indenting emitter.
- **The template catalog**:
  - the template, variable and category records;
  - the three preset templates;
  - the five categories, each holding the presets of its kind.
- **The template selector's list** (`filteredTemplates`): a category filter, flattening, and a lower-case search over name, description and tags.
- **The full editor page's state**: the editor text and the template it came from, with the initial load, template selection and edits.

The Dafny files and their modules:

| File | Module | Contents |
|---|---|---|
| `strings.dfy` | `Strings` | JavaScript's `\s`, `trim`, `split`, `join`, `toLowerCase` (ASCII) and `includes`, written out over `seq<char>` |
| `optional.dfy` | `Optional` | `Option` |
| `markup.dfy` | `Markup` | Element trees and their rendering as text, used to state what holds of the text of a well-formed document |
| `tag_scan.dfy` | `TagScan` | The tag tokeniser, the stack scan as a function, and the scan as a loop (`FindUnclosedTags`) |
| `attributes.dfy` | `Attributes` | The per-candidate attribute verdict and the loop that collects the rejected ones |
| `validation.dfy` | `Validation` | The findings, `ValidateXml`, the severity counts and badges, and the panel's state as a class |
| `formatter.dfy` | `Formatter` | The pre-pass, the tokeniser, the emitter, the `FormatXmlString` loop, and the layout of a formatted compact document |
| `presets.dfy` | `Presets` | The records, the presets and the categories |
| `preset_checks.dfy` | `PresetChecks` | What the presets promise: they validate clean, and every variable occurs as a placeholder |
| `selector.dfy` | `Selector` | `filteredTemplates` and its properties |
| `editor_state.dfy` | `EditorState` | The editor page's state machine, as a class |

Regular expressions are replaced by explicit recursive tokenisers over `seq<char>`. Where the source loops and pushes onto a list, the model is a `method` with a loop, proved equal to a recursive specification function. Every property is then proved about that function.

The browser's XML parser is not modelled. Its verdict enters `ValidateXml` as a `ParseFacts` record:

- whether parsing failed;
- whether the root element is `prompt`;
- whether a `system`, an `input` and an `output` element exist.

An element tree is well-formed (`WellFormed`) when every tag name matches `[a-zA-Z][a-zA-Z0-9]*` and all its character data is plain text (`IsPlainText`). Plain text holds no `<`, `>` or `&` (so no markup and no entity or character reference) and only characters XML 1.0 allows (production Char, section 2.2). For the text of a well-formed tree, `DocumentFacts` gives the verdict such a parser would give: a parse error exactly when the tree is bare character data with no root element (such as `"   "`, which the panel validates because it is a non-empty string), and the elements the tree holds.

The outer attribute regular expression (`<[^>]*\s+name\s*=\s*[^>]*>`) and the inner one that picks candidates out of each match are also not modelled. The candidate texts are an input of `ValidateXml`. `CandidateText` and `IsCandidate` describe the texts the inner pattern can produce, and `CandidateVerdict` classifies all of them.

Where the code and the product description disagree, the model follows the code:

- **`<a><b></a>`:** a closing tag that meets a different stack top still pops that top. So `a` is reported twice and `b` not at all, not "both `a` and `b`" (`TagScan.MismatchPopsTop`).
- **Empty content:** findings are not recomputed "on every change". An empty text leaves the previous findings in place (`Validation.ValidationPanel.ContentChanged`).

## Model

| member | source | states |
|---|---|---|
| TagScan.TagTokens | src/components/editor/ValidationPanel.tsx:120-126 | Every token the tag pattern yields carries a name of the form `[a-zA-Z][a-zA-Z0-9]*` |
| TagScan.FindUnclosedTags | src/components/editor/ValidationPanel.tsx:118-143 | The loop with its stack returns exactly the scan function's result: names reported during the scan, then the leftover stack from the bottom |
| TagScan.PushAll | src/components/editor/ValidationPanel.tsx:137-139 | The closing loop appends the leftover stack to the reported names, bottom first |
| TagScan.ScanAppend | src/components/editor/ValidationPanel.tsx:124-135 | Scanning two token runs one after the other equals scanning their concatenation |
| TagScan.ScanIsNeutral | src/components/editor/ValidationPanel.tsx:124-135 | The tag stream of a nested tree leaves the stack and the reports unchanged, from any state |
| TagScan.WellNestedHasNoUnclosed | src/components/editor/ValidationPanel.tsx:118-143 | A well-nested tag stream reports no unclosed tag |
| TagScan.OpenerTokens | src/components/editor/ValidationPanel.tsx:120 | `<name` followed by a non-name character is one opening match |
| TagScan.CloserTokens | src/components/editor/ValidationPanel.tsx:120 | `</name` followed by a non-name character is one closing match |
| TagScan.PlainTextTokens | src/components/editor/ValidationPanel.tsx:120 | Text without `<` yields no match |
| TagScan.RenderTokens | src/components/editor/ValidationPanel.tsx:120-126 | The matches in the text of a well-formed tree are exactly the tree's opening and closing tags, in document order |
| TagScan.RenderedTreeIsBalanced | src/components/editor/ValidationPanel.tsx:118-143 | The text of any well-formed tree reports no unclosed tag |
| TagScan.MismatchPopsTop | src/components/editor/ValidationPanel.tsx:128-131 | `<x><y></x>` with `x != y` reports `[x, x]`: the mismatching closer pops `y` and reports `x`, and the leftover `x` is reported again |
| TagScan.SelfClosingIsReported | src/components/editor/ValidationPanel.tsx:124-140 | A self-closing `<name/>` is pushed and never popped, so it is reported |
| TagScan.CommentOpenerIgnored | src/components/editor/ValidationPanel.tsx:120 | `<!--` starts no match |
| TagScan.DeclarationOpenerIgnored | src/components/editor/ValidationPanel.tsx:120 | `<?` starts no match |
| TagScan.UnclosedNamesComeFromTokens | src/components/editor/ValidationPanel.tsx:118-143 | Every reported name is the name of some scanned tag |
| Attributes.AttributeValue | src/components/editor/ValidationPanel.tsx:154 | The second piece of `split('=')` is absent exactly when there is no `=`, and it holds no `=` |
| Attributes.FindInvalidAttributes | src/components/editor/ValidationPanel.tsx:150-162 | The loop returns the trimmed malformed candidates in candidate order, which is `InvalidAttributes` |
| Attributes.InvalidAttributesSound | src/components/editor/ValidationPanel.tsx:153-157 | Every reported text is some malformed candidate, trimmed |
| Attributes.InvalidAttributesComplete | src/components/editor/ValidationPanel.tsx:153-157 | Every malformed candidate is reported, trimmed |
| Attributes.InvalidAttributesLength | src/components/editor/ValidationPanel.tsx:150-162 | The report is never longer than the candidate list |
| Attributes.CandidateValue | src/components/editor/ValidationPanel.tsx:151-154 | For a text the inner pattern matches, the split's value is the text after the first `=` up to the next `=` |
| Attributes.CandidateVerdict | src/components/editor/ValidationPanel.tsx:151-157 | A text the inner pattern matches is rejected exactly when whitespace follows `=` or the quoted body holds an `=`. Whitespace before `=` and mismatched quote kinds pass |
| Attributes.CandidateIsTrimmed | src/components/editor/ValidationPanel.tsx:156 | Trimming leaves a matched text unchanged |
| Validation.UnclosedFindings | src/components/editor/ValidationPanel.tsx:87-94 | One error `Unclosed tag: <name>` per unclosed tag, at the same position |
| Validation.AttributeFindings | src/components/editor/ValidationPanel.tsx:97-104 | One warning `Invalid attribute format: <attr>` per rejected attribute, at the same position |
| Validation.CheckStructure | src/components/editor/ValidationPanel.tsx:39-84 | The five parser checks push their findings in the source's order and with its severities and messages |
| Validation.ValidateXml | src/components/editor/ValidationPanel.tsx:29-116 | The findings are the parser findings, then the unclosed-tag errors, then the attribute warnings |
| Validation.PushUnclosed | src/components/editor/ValidationPanel.tsx:88-94 | The loop appends one `Unclosed tag` error per name, in order, after the findings already collected |
| Validation.PushInvalid | src/components/editor/ValidationPanel.tsx:98-104 | The loop appends one `Invalid attribute format` warning per candidate, in order, after the findings already collected |
| Validation.HasSeverityIffCounted | src/components/editor/ValidationPanel.tsx:191-193 | `some(severity === s)` holds exactly when `filter(severity === s).length` is positive |
| Validation.CountAppend | src/components/editor/ValidationPanel.tsx:209-219 | Severity counts add up over concatenated lists |
| Validation.CountStructure | src/components/editor/ValidationPanel.tsx:39-84 | The parser checks contribute one error each for parse failure, wrong root and missing input, and one warning each for missing system and missing output |
| Validation.ReportCounts | src/components/editor/ValidationPanel.tsx:29-116 | The badge counts. Errors: parse failure + wrong root + missing input + number of unclosed tags. Warnings: missing system + missing output + number of rejected attributes. Info: always 0 |
| Validation.ReportShape | src/components/editor/ValidationPanel.tsx:41-104 | Every finding has `type == severity`, no line or column, and is never an info |
| Validation.RootRequirementReportedOnce | src/components/editor/ValidationPanel.tsx:49-56 | The root-element message occurs once when the root is not `prompt`, and otherwise never |
| Validation.BareTextReport | src/components/editor/ValidationPanel.tsx:23-104 | Non-empty plain text with no element, which the non-empty guard lets through, gets exactly the parse error, the root error and the three missing-element findings, in the source's order, and no unclosed-tag or attribute finding |
| Validation.CompletePromptIsClean | src/components/editor/ValidationPanel.tsx:29-116 | A `prompt` document holding `system`, `input` and `output`, whose names are scanner names and whose character data is plain text (no `<`, `>` or `&`, only XML characters), with no attribute candidates, gets no findings |
| Validation.InputOnlyFacts | src/components/editor/ValidationPanel.tsx:49-84 | For `<prompt><input>text</input></prompt>` with plain `text` (no `<`, `>` or `&`, only XML characters) the parser succeeds and finds the `prompt` root and only an `input` element |
| Validation.InputOnlyPrompt | src/components/editor/ValidationPanel.tsx:29-116 | `<prompt><input>text</input></prompt>` with plain `text` gets exactly two warnings, missing `system` and missing `output` |
| Validation.ValidationPanel.constructor | src/components/editor/ValidationPanel.tsx:20 | The panel starts with no findings |
| Validation.ValidationPanel.ContentChanged | src/components/editor/ValidationPanel.tsx:23-27 | An empty text keeps the previous findings. Any other text replaces them with that text's report |
| Validation.ValidationPanel.HasErrors | src/components/editor/ValidationPanel.tsx:191 | The error badge shows exactly when the error count is positive |
| Validation.ValidationPanel.HasWarnings | src/components/editor/ValidationPanel.tsx:192 | The warning badge shows exactly when the warning count is positive |
| Validation.ValidationPanel.HasInfo | src/components/editor/ValidationPanel.tsx:193 | The info badge shows exactly when the info count is positive |
| Strings.TrimStart | src/components/editor/XMLEditor.tsx:207 | Removes exactly the leading whitespace; the result is empty or starts with non-whitespace |
| Strings.TrimEnd | src/components/editor/XMLEditor.tsx:207 | Removes exactly the trailing whitespace; the result is empty or ends with non-whitespace |
| Strings.TrimEmptyIff | src/components/editor/XMLEditor.tsx:219 | A token trims to empty exactly when it is all whitespace |
| Strings.SplitJoin | src/components/editor/ValidationPanel.tsx:154 | Joining the pieces of a split with the separator gives back the text, and no piece holds the separator |
| Strings.LowerKeepsSubstring | src/components/editor/TemplateSelector.tsx:21-23 | Lower-casing keeps every occurrence of one text inside another |
| Formatter.CollapseTagGaps | src/components/editor/XMLEditor.tsx:205 | Replacing `>\s+<` by `><` never lengthens the text |
| Formatter.CollapseTagGapsLeavesNoGap | src/components/editor/XMLEditor.tsx:205 | After the replacement no `>` is followed by whitespace and then `<` |
| Formatter.CollapseTagGapsDropsOnlyWhitespace | src/components/editor/XMLEditor.tsx:205 | The replacement deletes whitespace only: the non-whitespace characters are the input's, in order |
| Formatter.CollapseTagGapsKeepsLead | src/components/editor/XMLEditor.tsx:205 | The replacement keeps the leading whitespace run and the character after it |
| Formatter.CollapseLineIndents | src/components/editor/XMLEditor.tsx:206 | Replacing `\n\s*` by `\n` never lengthens the text, keeps its first character, and leaves no whitespace after any line break |
| Formatter.CollapseLineIndentsDropsOnlyWhitespace | src/components/editor/XMLEditor.tsx:206 | That replacement deletes whitespace only: the non-whitespace characters are the input's, in order |
| Strings.TrimKeepsNonWhitespace | src/components/editor/XMLEditor.tsx:207 | Trimming deletes whitespace only |
| Formatter.PrePassKeepsContent | src/components/editor/XMLEditor.tsx:204-207 | The three clean-ups together delete whitespace only, so every other character of the input reaches the token split in order |
| Formatter.FormatTokensShape | src/components/editor/XMLEditor.tsx:212 | Every token is a tag `<...>` without an inner `>`, or a non-empty text run without `<` |
| Formatter.FormatXmlString | src/components/editor/XMLEditor.tsx:201-232 | The loop that keeps an indent and pushes lines gives the emitter function's lines, joined with line breaks |
| Formatter.IndentTokens | src/components/editor/XMLEditor.tsx:210-230 | The token loop, starting at indent zero, produces exactly the emitter function's lines |
| Formatter.EmitCount | src/components/editor/XMLEditor.tsx:214-221 | One line per token that does not trim to empty |
| Formatter.EmitLinesEndInText | src/components/editor/XMLEditor.tsx:219-220 | No emitted line is empty or ends in whitespace |
| Formatter.CollapseTagGapsIdentity | src/components/editor/XMLEditor.tsx:205 | A text with no whitespace between `>` and `<` is left unchanged |
| Formatter.CollapseLineIndentsIdentity | src/components/editor/XMLEditor.tsx:206 | A text with no whitespace after a line break is left unchanged |
| Formatter.BlankFormatsToEmpty | src/components/editor/XMLEditor.tsx:201-232 | All-whitespace input formats to the empty text |
| Formatter.EmitAppend | src/components/editor/XMLEditor.tsx:214-230 | Emitting two token runs one after the other equals emitting their concatenation, with the indent carried over |
| Formatter.OpenTagLine | src/components/editor/XMLEditor.tsx:215-229 | An opening tag is written at the current indent and raises it by one |
| Formatter.CloseTagLine | src/components/editor/XMLEditor.tsx:215-222 | A closing tag lowers the indent by one and is written at the lowered indent |
| Formatter.StrayCloseTagLine | src/components/editor/XMLEditor.tsx:215-217 | A closing tag at indent zero is written at indent zero and the indent stays zero (`Math.max(0, indent - 1)`) |
| Formatter.SelfClosingTagLine | src/components/editor/XMLEditor.tsx:219-229 | A self-closing tag `<.../>` is written at the current indent and leaves the indent unchanged |
| Formatter.DeclarationLine | src/components/editor/XMLEditor.tsx:219-229 | A declaration or comment `<?...>` / `<!...>` not ending in `/>` is written at the current indent and raises it by one, like an opening tag |
| Formatter.TextLine | src/components/editor/XMLEditor.tsx:219-221 | A text run is written trimmed at the current indent, or not at all when blank, and leaves the indent unchanged |
| Formatter.LayoutHolds | src/components/editor/XMLEditor.tsx:214-230 | For a well-formed tree's tokens the emitter writes every element's tags at its depth and its texts one deeper, and ends at the starting indent |
| Formatter.RenderFormatTokens | src/components/editor/XMLEditor.tsx:212 | Tokenising the text of a compact tree yields its tags and texts in document order |
| Formatter.RenderKeepsGaps | src/components/editor/XMLEditor.tsx:205 | The text of a compact tree has no gap between tags to collapse |
| Formatter.RenderHasNoNewline | src/components/editor/XMLEditor.tsx:206 | The text of a compact tree has no line break |
| Formatter.FormatCompactDocument | src/components/editor/XMLEditor.tsx:201-232 | Formatting the one-line text of a compact document puts every tag and text on its own line, indented two spaces per nesting level |
| Presets.CategoryIdInjective | src/lib/templates/presets.ts:5 | Two categories have the same identifier exactly when they are the same category |
| Presets.OfCategoryMembers | src/lib/templates/presets.ts:181 | `filter(t => t.category === c)` keeps exactly the templates of category `c` |
| Presets.CategoriesCoverEachOnce | src/lib/templates/presets.ts:175-211 | The five category filters together take every template exactly once |
| Presets.CatalogContents | src/lib/templates/presets.ts:175-211 | The categories appear in the order basic, image, text, writer, video. Each holds its presets: one each for the first three, none for writer and video |
| Presets.CategoriesHoldOwnTemplates | src/lib/templates/presets.ts:175-211 | A catalog category holds a preset exactly when the preset's category carries the category's identifier |
| Presets.CatalogListsPresets | src/lib/templates/presets.ts:31-211 | Listing every category's templates gives back the presets in their own order |
| Presets.PresetIdsDistinct | src/lib/templates/presets.ts:31-173 | No two presets share an identifier |
| Presets.RequiredVariablesDefaultToPlaceholder | src/lib/templates/presets.ts:45-167 | A preset variable is required exactly when its default value is its own `{{name}}` placeholder |
| PresetChecks.ChineseQaShape | src/lib/templates/presets.ts:37-44 | The first preset's content is a well-formed `prompt` document with `system`, `input` and `output` and no `=` |
| PresetChecks.ImageGenerationShape | src/lib/templates/presets.ts:64-77 | The same for the image preset |
| PresetChecks.TextSummarizerShape | src/lib/templates/presets.ts:125-137 | The same for the summarizer preset |
| PresetChecks.PresetsValidateClean | src/lib/templates/presets.ts:31-173 | Every preset's content gets no findings from the validation panel |
| PresetChecks.PlaceholdersAppear | src/lib/templates/presets.ts:31-173 | Every variable of a preset occurs in its content as `{{name}}` |
| Selector.ChosenCategories | src/components/editor/TemplateSelector.tsx:18 | A category is kept exactly when the menu says `all` or names its id |
| Selector.SearchMembers | src/components/editor/TemplateSelector.tsx:20-24 | A template is kept exactly when the lower-cased query occurs in its lower-cased name, description or some tag |
| Selector.SearchIsSubsequence | src/components/editor/TemplateSelector.tsx:20-24 | The search only drops templates and never reorders them |
| Selector.AllWithEmptyQuery | src/components/editor/TemplateSelector.tsx:17-24 | With `all` and an empty query the list is every category's templates, category after category |
| Selector.CatalogInitialList | src/components/editor/TemplateSelector.tsx:13-24 | For the built-in catalog the initial list is the presets in their own order |
| Selector.FilteredIsSubsequence | src/components/editor/TemplateSelector.tsx:17-24 | The list is the flattened catalog with some templates left out, in catalog order |
| Selector.FilteredMembers | src/components/editor/TemplateSelector.tsx:17-24 | A template is listed exactly when a selected category holds it and it matches the query |
| Selector.UnknownCategoryListsNothing | src/components/editor/TemplateSelector.tsx:18 | An id that is neither `all` nor any category's id gives an empty list |
| Selector.CatalogCategoryFilter | src/components/editor/TemplateSelector.tsx:18-19 | With the built-in catalog, choosing one category lists only templates of that category |
| Selector.MatchesShorterQuery | src/components/editor/TemplateSelector.tsx:20-23 | A template that matches a query matches every query contained in it |
| Selector.ExtendingQueryNarrows | src/components/editor/TemplateSelector.tsx:17-24 | Extending the query only removes templates from the list; it never adds or reorders |
| EditorState.FindById | src/components/home/FullXMLEditor.tsx:15 | `find` returns the first template with the id, and nothing exactly when none has it |
| EditorState.DefaultTemplateFound | src/components/home/FullXMLEditor.tsx:15-16 | The default id finds the Chinese question-answer preset |
| EditorState.FullEditor.constructor | src/components/home/FullXMLEditor.tsx:9-10 | The page starts with no text and no template |
| EditorState.FullEditor.LoadDefault | src/components/home/FullXMLEditor.tsx:14-20 | The initial load shows the default preset's content and associates that preset |
| EditorState.FullEditor.SelectTemplate | src/components/home/FullXMLEditor.tsx:22-26 | Selecting shows the template's content and associates it |
| EditorState.FullEditor.ChangeContent | src/components/home/FullXMLEditor.tsx:28-34 | An edit always sets the text. It drops the template exactly when one is set and the new text differs from its content, and it never associates a new one. The associated template's content is always the shown text |

## Left out

- The browser's XML parser (`DOMParser`, `parsererror`, `querySelector`). Its verdict is an input, `ParseFacts`. `DocumentFacts` states the verdict only for the text of a well-formed tree, that is a single element or bare character data.
- The outer attribute regular expression and the inner one's search. The candidate texts are an input of `ValidateXml`; the texts the inner pattern can match are characterised by `IsCandidate`.
- The `try`/`catch` of `validateXML` and its `Validation error: ...` finding. No modelled check can throw.
- The `try`/`catch` of `formatXMLString`, which returns the input unchanged. No modelled step can throw.
- `isValidating` and the asynchronous scheduling of `validateXML`. The model runs each validation to completion.
- Lower: Unicode `toLowerCase` is modelled for ASCII letters only. Other characters are left unchanged.
- LowerKeepsSubstring: proved for lowering that maps each character on its own. JavaScript's `toLowerCase` also applies context rules such as Final_Sigma (`"ΑΣ"` lowers to `"ας"` but `"Σ"` to `"σ"`), under which an occurrence need not survive lowering.
- MatchesShorterQuery: rests on LowerKeepsSubstring, so it holds for per-character lowering only. Under Final_Sigma a template named `ΑΣ` matches the query `ΑΣ` but not `Σ`.
- ExtendingQueryNarrows: rests on MatchesShorterQuery, so "extending the query never adds a template" holds for per-character lowering only. Under Final_Sigma, going from `Σ` to `ΑΣ` can add a template.
- Dates (`createdAt`, `updatedAt`) are their ISO text `2024-01-01`, not `Date` objects.
- Presets content: each preset's content is the text rendered from its element tree. The tree reproduces the template literal's characters, line breaks and indentation exactly.
- FormatCompactDocument covers only compact documents. Names are tag names; texts are non-blank, on one line, and contain no `<` or `>`; no two texts are adjacent. Indented documents, comments, declarations and self-closing tags are covered only token by token: SelfClosingTagLine, DeclarationLine (declarations and comments raise the indent), StrayCloseTagLine and TextLine.
- The editor widget, clipboard, download, the Format button's timer, the preview modal, the `showTemplates` toggle, JSX rendering, icons and colours are user-interface code outside this model.
