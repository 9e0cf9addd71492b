# convert.js in Dafny

This project models `convertTestCases` of `convert.js`, the migration script that turns a
TestCaseLab CSV export into a Testomat.io CSV import. It also proves properties of the model.

- **Input and output.** A run takes the parsed records as `seq<map<string, string>>`. It either
  fails or yields the list of test cases. The writer would emit those rows under the 12 columns
  `ID, Title, Folder, Emoji, Priority, Tags, Owner, Description, Examples, Labels, Url, Matched`.
- **Column check.** The first record must have `Title`, `Key` and `Suite`. Otherwise the run
  stops and names the missing ones, in that order.
- **One record → one test case:**
  - `ID` is `TS` followed by the key.
  - `Title` is copied, blank when absent.
  - `Folder` is the suite with every `->` turned into `/`.
  - `Priority` is mapped to `high`, `normal` or `low` (by the corrected lookup of the Findings row).
  - `Tags` and `Owner` are copied, blank when absent.
  - `Description` is the step list joined by line breaks.
  - The other five columns are empty.
- **The step list**, in this order:
  - an optional precondition entry, taken from the text of `Description` between the first
    `Preconditions` and the next one (or the end), trimmed;
  - the fixed `## Steps` heading;
  - a bullet for each filled `Step i`, for i = 1 to 4, followed by an expected line when
    `Result i` is filled too;
  - a bullet for each non-blank line of `Steps`;
  - after those bullets, one expected line for `Expected Result`, only when both `Steps` and
    `Expected Result` are filled.
- **Cleaning.** Every step, result and precondition text passes through `cleanHtml`, which does
  four things (`Title`, `Key`, `Suite`, `Tags` and `Created By` are not cleaned):
  - `<br>` becomes a line break;
  - `p`/`span`/`div`/`ul`/`li` tags are dropped;
  - runs of blank lines collapse;
  - every `**` is removed, and the text is trimmed.
- **All or nothing.** A record without `Suite` makes `record['Suite'].replace` throw. The
  top-level `try` catches the error before anything is written, so a run produces every row or
  none.

Modules:

| file | module | contents |
|---|---|---|
| `wrappers.dfy` | `Wrappers` | `Option`, `Result` |
| `text.dfy` | `Text` | the JavaScript string operations used: `trim`, `includes`, `split`, global `replace` of a literal, `join` |
| `clean_html.dfy` | `HtmlClean` | the four regular expressions of `cleanHtml`, each as a leftmost-match scanner beside a declarative "is a match here" predicate |
| `priority.dfy` | `Priority` | `mapPriority`, in two forms: as written (with the prototype lookup) and corrected |
| `convert.dfy` | `Conversion` | records, test cases, the column check, the step-list specification, and the loops as methods |
| `convert_properties.dfy` | `ConversionProperties` | what the run promises: the layout of the step list, the fields of a row, the columns that are ignored, the outcome of a run |

The loops of the source are methods:
- `ConvertTestCases`, the `records.forEach`;
- `AddNumberedPairs`, the `for (i = 1..4)`;
- `AddLineBullets`, the `stepsLines.forEach`.

Each method is proved equal to a specification function, with the help of two loop lemmas:
`Conversion.PushLinesStep` and `Conversion.TransformAllStep` unfold that function once at a
prefix. The `Push…` functions describe what a
stretch of `steps.push` calls does to the array, and the properties are proved about those
functions.

## Model

| member | source | states |
|---|---|---|
| Conversion.MissingRequiredExact | convert.js:31-42 | The missing-columns list holds exactly the required columns the first record lacks, in the order `Title`, `Key`, `Suite`. |
| Conversion.AbsentColumnsExact | convert.js:36-37 | The filter keeps a column exactly when it is listed and absent from the record's keys. |
| Conversion.Cells | convert.js:112-118 | A row has one cell for each of the 12 output columns. |
| Conversion.CellsFollowColumns | convert.js:93-118 | Cell `k` of a row is the test-case field named by output column `k`, looked up by name. Exactly the 12 output columns name a field. |
| Conversion.TransformRecordDefined | convert.js:96 | Transforming one record succeeds exactly when the record has a `Suite`, the only column whose absence throws. |
| Conversion.ConvertEachOutcome | convert.js:46-109 | The loop over the records succeeds iff every record transforms. On success it gives one row per record, in input order. On failure it names the first record that fails; all records before it transform. |
| Conversion.TransformAllOutcome | convert.js:46-109 | The same, with "transforms" read as "has a `Suite`". |
| Conversion.TransformAllFailsAt | convert.js:96 | If every earlier record converted and record `i` has no `Suite`, the run fails at row `i`. |
| Conversion.BuildSteps | convert.js:50-90 | The pushes for one record build exactly the step list `StepList`. |
| Conversion.AddNumberedPairs | convert.js:64-75 | The loop over pairs 1 to 4 appends exactly the numbered-pair entries to the array it is given. |
| Conversion.AddFreeText | convert.js:78-90 | The free-text block appends exactly the `Steps`/`Expected Result` entries. |
| Conversion.AddLineBullets | convert.js:79-84 | The loop over the lines of `Steps` appends one bullet per non-blank line, in order. |
| Conversion.ConvertTestCases | convert.js:31-109 | The whole run returns `Convert(records)`: no input, missing columns, or one row per record. |
| ConversionProperties.ConvertOutcome | convert.js:31-109 | A run succeeds iff there is a first record, it has the three required columns, and every record has a `Suite`. A successful run has one row per record, in order. Otherwise it reports the first check that fails: EmptyInput for no records; MissingColumns naming exactly the required columns the first record lacks; MissingSuite naming the first record without a `Suite`. |
| ConversionProperties.StepListParts | convert.js:50-90 | The step list is the precondition entries, then the heading, then the pairs 1 to 4, then the free text, in that order. |
| ConversionProperties.PushPairAppends | convert.js:68-74 | The pushes of one pair append the same lines whatever the array already holds. |
| ConversionProperties.PushFreeTextAppends | convert.js:78-90 | The free-text pushes append the same lines whatever the array already holds. |
| ConversionProperties.NumberedEntriesStep | convert.js:64-75 | The entries of pairs 1 to n are those of pairs 1 to n-1 followed by pair n's. |
| ConversionProperties.PairEntriesShape | convert.js:68-74 | Pair i adds nothing iff its step is blank or absent. Otherwise it adds the step's bullet first. It adds two lines iff the result is filled too, and then the second is the result's expected line. A result without its step is dropped. |
| ConversionProperties.NumberedEntriesExpectedFollowsBullet | convert.js:64-75 | In the lines of pairs 1 to n, every expected line comes directly after a bullet. |
| ConversionProperties.NumberedEntriesHoldPair | convert.js:64-75 | The lines of pair i stand together, right after the lines of the pairs before it. |
| ConversionProperties.LineKinds | convert.js:61-72 | Bullets and expected lines are told apart by their prefix. The heading is neither. |
| ConversionProperties.LineTextIsClean | convert.js:68-88 | The text after a line's prefix is the cleaned, trimmed cell: no white space at the edges and no `**`. |
| ConversionProperties.LineBulletsOfNonBlankLines | convert.js:79-84 | The free-text bullets are, one for one and in order, the bullets of the non-blank lines. |
| ConversionProperties.FilledStepsGiveBullets | convert.js:78-84 | A `Steps` cell that is not blank yields at least one bullet. |
| ConversionProperties.LineBulletsAreBullets | convert.js:80-84 | Every free-text entry is a bullet line and not an expected line. |
| ConversionProperties.FreeTextEntriesShape | convert.js:78-90 | Without a filled `Steps`, the free text adds nothing, even when `Expected Result` is filled. With it, the free text adds a non-empty run of bullets, followed by one expected line iff `Expected Result` is filled. That line is `Expected Result`'s expected line; it is the only expected line, and it follows a bullet. |
| ConversionProperties.PreconditionEntriesShape | convert.js:53-58 | There is one precondition entry iff `Description` mentions `Preconditions`. It starts with the precondition heading and holds the cleaned text between the first `Preconditions` and the next one (or the end), trimmed and with `**` removed. |
| ConversionProperties.StepListHeading | convert.js:53-61 | The `## Steps` heading is the first entry, or the second when there is a precondition. The list starts with the precondition heading iff there is a precondition. |
| ConversionProperties.StepListExpectedFollowsBullet | convert.js:50-90 | In the whole step list, every expected line directly follows a bullet. |
| ConversionProperties.StepListShape | convert.js:50-90 | The heading position, the precondition iff, and the expected-after-bullet property, together. |
| ConversionProperties.FolderShape | convert.js:96 | A folder never holds `->`. A suite name without `->` is used exactly as it is. |
| ConversionProperties.TransformRecordFields | convert.js:93-106 | Every field of the test case, exactly when the record has a `Suite`:<br>- `ID` is `TS` followed by the key, or `TSundefined` when the key is absent;<br>- the title, tags and owner are copied, or empty;<br>- the folder has no `->`;<br>- the priority is one of the three levels;<br>- the description is the step list joined by `\n`;<br>- the other columns are empty. |
| ConversionProperties.TransformRecordFrame | convert.js:46-106 | Two records with the same cells in the 17 columns the transform reads, and missing the same ones, become the same test case. |
| ConversionProperties.TransformRecordIgnoresOtherColumns | convert.js:64-106 | Setting, changing or removing a column the transform does not read leaves the test case unchanged. |
| ConversionProperties.FifthStepIgnored | convert.js:64 | `Step 5` (and later pairs) never influence a test case, since the loop ends at 4. |
| Priority.MapPriority | convert.js:124-136 | The mapped priority is always `high`, `normal` or `low`. |
| Priority.MapPriorityTable | convert.js:125-135 | The eight table entries, one by one. Any other name, or an absent value, gives `normal`. |
| Priority.MapPriorityAsWritten | convert.js:125-135 | The lookup as written yields an inherited prototype member exactly for the names `Object.prototype` has. |
| Priority.MapPriorityAsWrittenLeaksPrototype | convert.js:135 | For `toString`, the code as written yields the inherited function, where the intended result is `normal`. |
| Priority.MapPriorityAsWrittenAgrees | convert.js:125-135 | For every name `Object.prototype` does not have, the code as written and the corrected function agree. |
| HtmlClean.CleanHtml | convert.js:138-146 | The cleaned text has no white space at either edge. An empty text gives the empty text, as the early return does. |
| HtmlClean.CleanHtmlRemovesBold | convert.js:144-145 | The cleaned text holds no `**`. |
| HtmlClean.CleanHtmlKeepsPlainText | convert.js:138-146 | Text with no `<`, no line break, no `**` and no edge white space passes through unchanged. |
| HtmlClean.BrMatch | convert.js:141 | A match found at the front is a `<br\s*\/?>` tag, in any letter case. |
| HtmlClean.BrMatchFindsEveryTag | convert.js:141 | Every `<br\s*\/?>` tag at the front is found, with its exact length. |
| HtmlClean.TagMatch | convert.js:142 | A match found at the front is an opening or closing `p`/`span`/`div`/`ul`/`li` tag up to the first `>`. |
| HtmlClean.TagMatchFindsEveryTag | convert.js:142 | Every such tag at the front is found, ending at its first `>`. |
| HtmlClean.BlankRunMatch | convert.js:143 | A match found at the front is a `\n\s*\n` run. |
| HtmlClean.BlankRunMatchIsLongest | convert.js:143 | The match is at least as long as any `\n\s*\n` run at the front, as the greedy `\s*` demands. |
| HtmlClean.CollapseLeavesNoBlankRun | convert.js:143 | After collapsing, no `\n\s*\n` run is left anywhere in the text. |
| HtmlClean.TagPassesKeepTagFreeText | convert.js:141-142 | Text without `<` passes the `<br>` and block-tag passes unchanged. |
| Text.Trim | convert.js:54-88 | The result has no edge white space. It is the input with only white space removed from each end. It is empty iff the input is all white space. |
| Text.SecondPiece | convert.js:54 | `split(sep)[1]` is the text from the end of the first separator up to the start of the next one (or to the end). No separator starts inside it, in the whole text, and the piece holds no separator. |
| Text.Split | convert.js:79 | Joining the pieces with the separator gives back the input. No piece holds the separator. |
| Text.ArrowReplaceLeavesNone | convert.js:96 | Replacing every `->` by `/` leaves no `->`. |
| Text.ReplaceAllWithoutMatch | convert.js:96 | Replacing a pattern that does not occur leaves the text unchanged. |
| Text.BoldRemoveLeavesNone | convert.js:144 | Removing every `**` leaves no `**`. |
| Text.TrimKeepsAbsence | convert.js:145 | Trimming does not create a pattern that was absent. |

## Left out

- Command-line handling and the output file name (`convert.js:6-20`) are not modelled. `ConvertTestCases` takes the parsed records and returns the rows.
- Reading the file, `csv-parse`, `csv-stringify` and writing the file (`convert.js:24-28, 111-121`) are not modelled. The records are a parameter. The result stands for the rows handed to the writer, with the column order fixed as `OutputColumns`.
- Console output (`convert.js:40, 47, 121, 151`) and `process.exit` are not modelled. Each abort is a `ConvertError` value.
- An empty input makes `records[0]` undefined, and `Object.keys` then throws. The model returns `EmptyInput` instead.
- The writer prints an absent `Title` as an empty cell. The model stores `""` (`OrEmpty`).
- Records are maps, so every record may have its own key set. The CSV parser gives every record the header's columns, so a missing `Suite` on a later row only arises for such inputs. The model handles the general case.
- `Text.IsSpace`: JavaScript's `\s` and `trim` use the Unicode white-space set. The model takes ASCII white space, no-break space and the byte-order mark. Other Unicode spaces are not modelled.
- Letter case in the `gi` patterns covers ASCII letters only (`HtmlClean.ToLower`).
- `HtmlClean.CleanHtml`: removing `**` after the blank-line pass can leave a new `\n\s*\n` run. No lemma claims the final text is free of blank runs, because the source does not guarantee it.
- `Conversion.TransformRecord`: the run uses the corrected lookup `Priority.MapPriority` of the Findings row. For a `Priority` naming an `Object.prototype` member (`toString`, `constructor`, …), the model gives a row with `normal`, where convert.js's `mapPriority` returns the inherited member. What the writer then does with that value is not modelled.

## Findings

| source | as written | input that shows it | evidently intended | confidence | as-written member | corrected member |
|---|---|---|---|---|---|---|
| convert.js:135 | `priorityMap[priority] \|\| 'normal'` looks the name up through the prototype chain of an object literal | `Priority` = `toString` (or `constructor`, `valueOf`, …) makes `mapPriority` return the inherited function instead of a level | take only the table's own entries, and `normal` for every other name | not executed | Priority.MapPriorityAsWritten, Priority.MapPriorityAsWrittenLeaksPrototype | Priority.MapPriority |
