/**
 * `convertTestCases` of convert.js: validate the columns of the first record, turn every
 * record into one test case of the target schema, and hand the rows to the writer only
 * when every record converted.
 */
module Conversion {
  import opened Wrappers
  import opened Text
  import opened HtmlClean
  import opened Priority

  /** One parsed input row, from column name to cell text; a column that is absent reads as `undefined`. */
  type Record = map<string, string>

  /** The columns the first record must have. */
  const RequiredColumns: seq<string> := ["Title", "Key", "Suite"]

  /** The columns of the output file, in the order the writer emits them. */
  const OutputColumns: seq<string> := [
    "ID", "Title", "Folder", "Emoji", "Priority",
    "Tags", "Owner", "Description", "Examples", "Labels", "Url", "Matched"]

  /** The numbered `Step i` / `Result i` pairs are read for i = 1 to 4 and no further. */
  const MaxPairs: nat := 4

  const PreconditionMarker := "Preconditions"
  const PreconditionHeading := "\n## Precondition\n\n"
  const StepsHeading := "\n\n## Steps\n"
  const BulletPrefix := "* "
  const ExpectedPrefix := "  *Expected:* "

  /** Why a run produces no output. */
  datatype ConvertError =
    | EmptyInput                          // no record to take the columns from
    | MissingColumns(columns: seq<string>) // required columns absent from the first record
    | MissingSuite(row: nat)              // `record['Suite'].replace` on an absent column throws

  /** One output row, field by field in the order of `OutputColumns`. */
  datatype TestCase = TestCase(
    id: string, title: string, folder: string, emoji: string, priority: string, tags: string,
    owner: string, description: string, examples: string, labels: string, url: string, matched: string)

  /** The cells of `tc` in the order of `OutputColumns`. */
  function Cells(tc: TestCase): (cells: seq<string>)
    ensures |cells| == |OutputColumns|
  {
    [tc.id, tc.title, tc.folder, tc.emoji, tc.priority, tc.tags,
     tc.owner, tc.description, tc.examples, tc.labels, tc.url, tc.matched]
  }

  /** The field of `tc` that the writer puts under the column named `column`, if it is one of the twelve. */
  function ColumnValue(tc: TestCase, column: string): Option<string> {
    match column
    case "ID" => Some(tc.id)
    case "Title" => Some(tc.title)
    case "Folder" => Some(tc.folder)
    case "Emoji" => Some(tc.emoji)
    case "Priority" => Some(tc.priority)
    case "Tags" => Some(tc.tags)
    case "Owner" => Some(tc.owner)
    case "Description" => Some(tc.description)
    case "Examples" => Some(tc.examples)
    case "Labels" => Some(tc.labels)
    case "Url" => Some(tc.url)
    case "Matched" => Some(tc.matched)
    case _ => None
  }

  /** Cell `k` of a row is the field named by output column `k`, and only the output columns name a field. */
  lemma CellsFollowColumns(tc: TestCase)
    ensures forall k :: 0 <= k < |OutputColumns| ==> ColumnValue(tc, OutputColumns[k]) == Some(Cells(tc)[k])
    ensures forall column :: ColumnValue(tc, column).Some? <==> column in OutputColumns
  {
  }

  /** `record[k]`. */
  function Field(r: Record, k: string): Option<string> {
    if k in r then Some(r[k]) else None
  }

  /** `record[k] && record[k].trim()` is truthy: the column is present and not blank. */
  predicate Filled(r: Record, k: string) {
    k in r && Trim(r[k]) != []
  }

  /** `${v}` in a template literal. */
  function TemplateText(v: Option<string>): string {
    match v
    case None => "undefined"
    case Some(s) => s
  }

  /** `v || ''`; the writer also prints `undefined` as an empty cell. */
  function OrEmpty(v: Option<string>): string {
    match v
    case None => ""
    case Some(s) => s
  }

  // ---------------------------------------------------------------------------
  // Column validation
  // ---------------------------------------------------------------------------

  /** `cols.filter(col => !keys.includes(col))`. */
  function AbsentColumns(cols: seq<string>, r: Record): seq<string>
    decreases |cols|
  {
    if cols == [] then []
    else (if cols[0] in r then [] else [cols[0]]) + AbsentColumns(cols[1..], r)
  }

  /** The required columns that `r` lacks. */
  function MissingRequired(r: Record): seq<string> {
    AbsentColumns(RequiredColumns, r)
  }

  /** The filter keeps exactly the absent columns. */
  lemma {:induction false} AbsentColumnsExact(cols: seq<string>, r: Record)
    ensures forall c :: c in AbsentColumns(cols, r) <==> c in cols && c !in r
    decreases |cols|
  {
    if cols != [] {
      AbsentColumnsExact(cols[1..], r);
      assert cols == [cols[0]] + cols[1..];
    }
  }

  /** Validation reports exactly the missing required columns, in the order Title, Key, Suite. */
  lemma MissingRequiredExact(r: Record)
    ensures forall c :: c in MissingRequired(r) <==> c in RequiredColumns && c !in r
    ensures MissingRequired(r) ==
      (if "Title" in r then [] else ["Title"]) + (if "Key" in r then [] else ["Key"])
      + (if "Suite" in r then [] else ["Suite"])
  {
    AbsentColumnsExact(RequiredColumns, r);
  }

  // ---------------------------------------------------------------------------
  // The step list
  // ---------------------------------------------------------------------------

  function Digit(i: nat): char
    requires i <= 9
  {
    "0123456789"[i]
  }

  /** `Step ${i}`. */
  function StepKey(i: nat): string
    requires 1 <= i <= 9
  {
    "Step " + [Digit(i)]
  }

  /** `Result ${i}`. */
  function ResultKey(i: nat): string
    requires 1 <= i <= 9
  {
    "Result " + [Digit(i)]
  }

  /** The bullet line for a step text. */
  function Bullet(text: string): string {
    BulletPrefix + CleanHtml(Trim(text))
  }

  /** The expected-result line for a result text. */
  function ExpectedLine(text: string): string {
    ExpectedPrefix + CleanHtml(Trim(text))
  }

  predicate IsExpectedLine(line: string) {
    StartsWith(line, ExpectedPrefix)
  }

  /** The description mentions `Preconditions`. */
  predicate HasPrecondition(r: Record) {
    "Description" in r && Contains(r["Description"], PreconditionMarker)
  }

  /** `description.split('Preconditions')[1].trim()` with every `**` removed. */
  function PreconditionText(description: string): string
    requires Contains(description, PreconditionMarker)
  {
    ReplaceAll(Trim(SecondPiece(description, PreconditionMarker)), "**", "")
  }

  // Each `Push…` function states what one stretch of pushes does to the `steps` array it is
  // handed; the `…Entries` functions are the lines that stretch adds to an empty array.

  /** `steps.push` of the precondition entry, when the description mentions `Preconditions`. */
  function PushPrecondition(steps: seq<string>, r: Record): seq<string> {
    if HasPrecondition(r) then steps + [PreconditionHeading + CleanHtml(PreconditionText(r["Description"]))]
    else steps
  }

  /** The pushes of one `Step`/`Result` column pair: the step's bullet, then the expected line when the result is filled too. */
  function PushPair(steps: seq<string>, r: Record, stepKey: string, resultKey: string): seq<string> {
    if Filled(r, stepKey) then
      var withStep := steps + [Bullet(r[stepKey])];
      if Filled(r, resultKey) then withStep + [ExpectedLine(r[resultKey])] else withStep
    else steps
  }

  /** The pushes of pairs 1 to `n`, in that order. */
  function PushNumbered(steps: seq<string>, r: Record, n: nat): seq<string>
    requires n <= MaxPairs
  {
    if n == 0 then steps else PushPair(PushNumbered(steps, r, n - 1), r, StepKey(n), ResultKey(n))
  }

  /** One bullet pushed per non-blank line, in order. */
  function PushLines(steps: seq<string>, lines: seq<string>): seq<string>
    decreases |lines|
  {
    if lines == [] then steps
    else
      var last := lines[|lines| - 1];
      var before := PushLines(steps, lines[..|lines| - 1]);
      if Trim(last) != [] then before + [Bullet(last)] else before
  }

  /** Taking one more line pushes at most that line's bullet. */
  lemma PushLinesStep(steps: seq<string>, lines: seq<string>, k: nat)
    requires k < |lines|
    ensures PushLines(steps, lines[..k + 1]) ==
      if Trim(lines[k]) != [] then PushLines(steps, lines[..k]) + [Bullet(lines[k])] else PushLines(steps, lines[..k])
  {
    assert lines[..k + 1][..k] == lines[..k];
  }

  /** The pushes of the free-text `Steps` column, with one `Expected Result` line after them all. */
  function PushFreeText(steps: seq<string>, r: Record): seq<string> {
    if Filled(r, "Steps") then
      var bullets := PushLines(steps, Split(r["Steps"], '\n'));
      if Filled(r, "Expected Result") then bullets + [ExpectedLine(r["Expected Result"])] else bullets
    else steps
  }

  /** The `steps` array of one record. */
  function StepList(r: Record): seq<string> {
    PushFreeText(PushNumbered(PushPrecondition([], r) + [StepsHeading], r, MaxPairs), r)
  }

  function PreconditionEntries(r: Record): seq<string> {
    PushPrecondition([], r)
  }

  function PairEntries(r: Record, i: nat): seq<string>
    requires 1 <= i <= MaxPairs
  {
    PushPair([], r, StepKey(i), ResultKey(i))
  }

  function NumberedEntries(r: Record, n: nat): seq<string>
    requires n <= MaxPairs
  {
    PushNumbered([], r, n)
  }

  function LineBullets(lines: seq<string>): seq<string> {
    PushLines([], lines)
  }

  function FreeTextEntries(r: Record): seq<string> {
    PushFreeText([], r)
  }

  // ---------------------------------------------------------------------------
  // One record
  // ---------------------------------------------------------------------------

  /** `suite.replace(/->/g, '/')`. */
  function Folder(suite: string): string {
    ReplaceAll(suite, "->", "/")
  }

  /** The test case for `r`, or `None` where reading `Suite` throws. */
  function TransformRecord(r: Record): Option<TestCase> {
    if "Suite" !in r then None
    else Some(TestCase(
      id := "TS" + TemplateText(Field(r, "Key")),
      title := OrEmpty(Field(r, "Title")),
      folder := Folder(r["Suite"]),
      emoji := "",
      priority := MapPriority(Field(r, "Priority")),
      tags := OrEmpty(Field(r, "Tags")),
      owner := OrEmpty(Field(r, "Created By")),
      description := Join(StepList(r), "\n"),
      examples := "",
      labels := "",
      url := "",
      matched := ""))
  }

  // ---------------------------------------------------------------------------
  // The run
  // ---------------------------------------------------------------------------

  /**
   * `records.forEach` with a per-record `transform` that may throw (`None`): the rows of all
   * records in input order, or the error of the first record that throws.
   */
  function ConvertEach<T>(records: seq<Record>, transform: Record -> Option<T>): Result<seq<T>, ConvertError>
    decreases |records|
  {
    if records == [] then Success([])
    else
      var last := |records| - 1;
      match ConvertEach(records[..last], transform)
      case Failure(e) => Failure(e)
      case Success(rows) =>
        match transform(records[last])
        case None => Failure(MissingSuite(last))
        case Some(row) => Success(rows + [row])
  }

  /**
   * A run either converts every record, one row per record in input order, or produces nothing
   * and names the first record that throws.
   */
  lemma {:induction false} ConvertEachOutcome<T>(records: seq<Record>, transform: Record -> Option<T>)
    ensures ConvertEach(records, transform).Success? <==>
      forall k :: 0 <= k < |records| ==> transform(records[k]).Some?
    ensures ConvertEach(records, transform).Success? ==>
      |ConvertEach(records, transform).value| == |records| &&
      forall k :: 0 <= k < |records| ==> transform(records[k]) == Some(ConvertEach(records, transform).value[k])
    ensures ConvertEach(records, transform).Failure? ==>
      ConvertEach(records, transform).error.MissingSuite? &&
      var row := ConvertEach(records, transform).error.row;
      row < |records| && transform(records[row]).None? &&
      forall k :: 0 <= k < row ==> transform(records[k]).Some?
    decreases |records|
  {
    if records != [] {
      var last := |records| - 1;
      var init := records[..last];
      ConvertEachOutcome(init, transform);
      assert forall k :: 0 <= k < last ==> records[k] == init[k];
    }
  }

  /** Every record becomes its test case, or the run stops at the first one whose `Suite` is absent. */
  function TransformAll(records: seq<Record>): Result<seq<TestCase>, ConvertError> {
    ConvertEach(records, TransformRecord)
  }

  /** A record yields a test case exactly when it has a `Suite` column. */
  lemma TransformRecordDefined(r: Record)
    ensures TransformRecord(r).Some? <==> "Suite" in r
  {
  }

  /**
   * A run succeeds exactly when every record has a `Suite`, and then yields one row per record
   * in input order; otherwise it fails at the first record without one.
   */
  lemma TransformAllOutcome(records: seq<Record>)
    ensures TransformAll(records).Success? <==> forall k :: 0 <= k < |records| ==> "Suite" in records[k]
    ensures TransformAll(records).Success? ==>
      |TransformAll(records).value| == |records| &&
      forall k :: 0 <= k < |records| ==> TransformRecord(records[k]) == Some(TransformAll(records).value[k])
    ensures TransformAll(records).Failure? ==>
      TransformAll(records).error.MissingSuite? &&
      var row := TransformAll(records).error.row;
      row < |records| && "Suite" !in records[row] && forall k :: 0 <= k < row ==> "Suite" in records[k]
  {
    ConvertEachOutcome(records, TransformRecord);
    forall k | 0 <= k < |records| {
      TransformRecordDefined(records[k]);
    }
  }

  /** Converting one more record that has a `Suite` appends its row. */
  lemma TransformAllStep(records: seq<Record>, i: nat)
    requires i < |records| && "Suite" in records[i]
    requires TransformAll(records[..i]).Success?
    ensures TransformAll(records[..i + 1]) ==
      Success(TransformAll(records[..i]).value + [TransformRecord(records[i]).value])
  {
    assert records[..i + 1][..i] == records[..i];
  }

  /** When the records before `i` all convert and record `i` has no `Suite`, the run fails at row `i`. */
  lemma TransformAllFailsAt(records: seq<Record>, i: nat)
    requires i < |records| && "Suite" !in records[i]
    requires TransformAll(records[..i]).Success?
    ensures TransformAll(records) == Failure(MissingSuite(i))
  {
    var prefix := records[..i];
    TransformAllOutcome(prefix);
    TransformAllOutcome(records);
    assert forall k :: 0 <= k < i ==> "Suite" in records[k] by {
      assert forall k :: 0 <= k < i ==> prefix[k] == records[k];
    }
  }

  /** The whole conversion of the parsed records. */
  function Convert(records: seq<Record>): Result<seq<TestCase>, ConvertError> {
    if records == [] then Failure(EmptyInput)
    else if MissingRequired(records[0]) != [] then Failure(MissingColumns(MissingRequired(records[0])))
    else TransformAll(records)
  }

  // ---------------------------------------------------------------------------
  // The loops of convertTestCases
  // ---------------------------------------------------------------------------

  /** Builds the `steps` array of one record by pushing its lines one by one. */
  method BuildSteps(record: Record) returns (steps: seq<string>)
    ensures steps == StepList(record)
  {
    steps := [];
    if "Description" in record && Contains(record["Description"], PreconditionMarker) {
      var preconditions := Trim(SecondPiece(record["Description"], PreconditionMarker));
      preconditions := ReplaceAll(preconditions, "**", "");
      steps := steps + [PreconditionHeading + CleanHtml(preconditions)];
    }
    steps := steps + [StepsHeading];
    steps := AddNumberedPairs(steps, record);
    steps := AddFreeText(steps, record);
  }

  /** The loop over the `Step i` / `Result i` columns, i = 1 to 4. */
  method AddNumberedPairs(before: seq<string>, record: Record) returns (steps: seq<string>)
    ensures steps == PushNumbered(before, record, MaxPairs)
  {
    steps := before;
    for i := 1 to MaxPairs + 1
      invariant steps == PushNumbered(before, record, i - 1)
    {
      var stepKey, resultKey := StepKey(i), ResultKey(i);
      if stepKey in record && Trim(record[stepKey]) != [] {
        steps := steps + [Bullet(record[stepKey])];
        if resultKey in record && Trim(record[resultKey]) != [] {
          steps := steps + [ExpectedLine(record[resultKey])];
        }
      }
    }
  }

  /** The free-text `Steps` column: its lines' bullets, then the one `Expected Result` line. */
  method AddFreeText(before: seq<string>, record: Record) returns (steps: seq<string>)
    ensures steps == PushFreeText(before, record)
  {
    steps := before;
    if "Steps" in record && Trim(record["Steps"]) != [] {
      var stepsLines := Split(record["Steps"], '\n');
      steps := AddLineBullets(steps, stepsLines);
      if "Expected Result" in record && Trim(record["Expected Result"]) != [] {
        steps := steps + [ExpectedLine(record["Expected Result"])];
      }
    }
  }

  /** The loop over the lines of the `Steps` column, pushing a bullet for each non-blank one. */
  method AddLineBullets(before: seq<string>, lines: seq<string>) returns (steps: seq<string>)
    ensures steps == PushLines(before, lines)
  {
    steps := before;
    for k := 0 to |lines|
      invariant steps == PushLines(before, lines[..k])
    {
      var line := lines[k];
      PushLinesStep(before, lines, k);
      if Trim(line) != [] {
        steps := steps + [Bullet(line)];
      }
    }
    assert lines[..|lines|] == lines;
  }

  /** Validates the columns, then pushes one test case per record. */
  method ConvertTestCases(records: seq<Record>) returns (result: Result<seq<TestCase>, ConvertError>)
    ensures result == Convert(records)
  {
    if |records| == 0 {
      return Failure(EmptyInput);
    }
    var missingColumns := MissingRequired(records[0]);
    if |missingColumns| > 0 {
      return Failure(MissingColumns(missingColumns));
    }
    var transformedData: seq<TestCase> := [];
    for i := 0 to |records|
      invariant TransformAll(records[..i]) == Success(transformedData)
    {
      var record := records[i];
      var steps := BuildSteps(record);
      if "Suite" !in record {
        TransformAllFailsAt(records, i);
        return Failure(MissingSuite(i));
      }
      var testCase := TestCase(
        id := "TS" + TemplateText(Field(record, "Key")),
        title := OrEmpty(Field(record, "Title")),
        folder := ReplaceAll(record["Suite"], "->", "/"),
        emoji := "",
        priority := MapPriority(Field(record, "Priority")),
        tags := OrEmpty(Field(record, "Tags")),
        owner := OrEmpty(Field(record, "Created By")),
        description := Join(steps, "\n"),
        examples := "",
        labels := "",
        url := "",
        matched := "");
      TransformAllStep(records, i);
      transformedData := transformedData + [testCase];
    }
    assert records[..|records|] == records;
    return Success(transformedData);
  }
}
