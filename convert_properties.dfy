/**
 * What `convertTestCases` promises about its output: the shape of the step list, the fields
 * of a test case, and the all-or-nothing outcome of a run.
 */
module ConversionProperties {
  import opened Wrappers
  import opened Text
  import opened HtmlClean
  import opened Priority
  import opened Conversion

  // ---------------------------------------------------------------------------
  // Pushing onto a longer array pushes the same lines
  // ---------------------------------------------------------------------------

  lemma AppendAssoc(a: seq<string>, b: seq<string>, c: seq<string>)
    ensures (a + b) + c == a + (b + c)
  {
  }

  lemma PushPairAppends(steps: seq<string>, r: Record, stepKey: string, resultKey: string)
    ensures PushPair(steps, r, stepKey, resultKey) == steps + PushPair([], r, stepKey, resultKey)
  {
    if Filled(r, stepKey) {
      var b := Bullet(r[stepKey]);
      if Filled(r, resultKey) {
        var e := ExpectedLine(r[resultKey]);
        assert PushPair([], r, stepKey, resultKey) == [b] + [e];
        AppendAssoc(steps, [b], [e]);
      }
    }
  }

  lemma {:induction false} PushNumberedAppends(steps: seq<string>, r: Record, n: nat)
    requires n <= MaxPairs
    ensures PushNumbered(steps, r, n) == steps + NumberedEntries(r, n)
    decreases n
  {
    if n > 0 {
      PushNumberedAppends(steps, r, n - 1);
      PushNumberedAppends([], r, n - 1);
      var before := NumberedEntries(r, n - 1);
      assert NumberedEntries(r, n) == PushPair(before, r, StepKey(n), ResultKey(n));
      PushPairAppends(steps + before, r, StepKey(n), ResultKey(n));
      PushPairAppends(before, r, StepKey(n), ResultKey(n));
      AppendAssoc(steps, before, PairEntries(r, n));
    }
  }

  lemma {:induction false} PushLinesAppends(steps: seq<string>, lines: seq<string>)
    ensures PushLines(steps, lines) == steps + LineBullets(lines)
    decreases |lines|
  {
    if lines != [] {
      var init, last := lines[..|lines| - 1], lines[|lines| - 1];
      PushLinesAppends(steps, init);
      PushLinesAppends([], init);
      if Trim(last) != [] {
        AppendAssoc(steps, LineBullets(init), [Bullet(last)]);
      }
    }
  }

  lemma PushFreeTextAppends(steps: seq<string>, r: Record)
    ensures PushFreeText(steps, r) == steps + FreeTextEntries(r)
  {
    if Filled(r, "Steps") {
      var lines := Split(r["Steps"], '\n');
      PushLinesAppends(steps, lines);
      PushLinesAppends([], lines);
      if Filled(r, "Expected Result") {
        AppendAssoc(steps, LineBullets(lines), [ExpectedLine(r["Expected Result"])]);
      }
    }
  }

  /**
   * The `steps` array is the optional precondition entry, the fixed `## Steps` heading, the
   * lines of pairs 1 to 4, then the lines of the free-text columns, in that order.
   */
  lemma StepListParts(r: Record)
    ensures StepList(r) ==
      PreconditionEntries(r) + [StepsHeading] + NumberedEntries(r, MaxPairs) + FreeTextEntries(r)
  {
    var head := PreconditionEntries(r) + [StepsHeading];
    PushNumberedAppends(head, r, MaxPairs);
    PushFreeTextAppends(head + NumberedEntries(r, MaxPairs), r);
  }

  /** Pairs 1 to `n` are pairs 1 to `n - 1` followed by pair `n`. */
  lemma NumberedEntriesStep(r: Record, n: nat)
    requires 1 <= n <= MaxPairs
    ensures NumberedEntries(r, n) == NumberedEntries(r, n - 1) + PairEntries(r, n)
  {
    PushPairAppends(NumberedEntries(r, n - 1), r, StepKey(n), ResultKey(n));
  }

  // ---------------------------------------------------------------------------
  // The kinds of line
  // ---------------------------------------------------------------------------

  predicate IsBulletLine(line: string) {
    StartsWith(line, BulletPrefix)
  }

  /** Bullets and expected lines are told apart by their first character. */
  lemma LineKinds(text: string)
    ensures IsBulletLine(Bullet(text)) && !IsExpectedLine(Bullet(text))
    ensures IsExpectedLine(ExpectedLine(text)) && !IsBulletLine(ExpectedLine(text))
    ensures !IsExpectedLine(StepsHeading) && !IsBulletLine(StepsHeading)
  {
    assert Bullet(text)[0] == '*';
    assert ExpectedLine(text)[0] == ' ';
  }

  /** The text after a bullet's or an expected line's prefix is cleaned: no edge white space, no `**`. */
  lemma LineTextIsClean(text: string)
    ensures Bullet(text)[|BulletPrefix|..] == CleanHtml(Trim(text))
    ensures ExpectedLine(text)[|ExpectedPrefix|..] == CleanHtml(Trim(text))
    ensures NoEdgeSpace(CleanHtml(Trim(text))) && !Contains(CleanHtml(Trim(text)), "**")
  {
    CleanHtmlRemovesBold(Trim(text));
  }

  /** Every expected line directly follows a bullet. */
  predicate ExpectedFollowsBullet(lines: seq<string>) {
    forall p :: 0 <= p < |lines| && IsExpectedLine(lines[p]) ==> p > 0 && IsBulletLine(lines[p - 1])
  }

  lemma ExpectedFollowsBulletAppend(a: seq<string>, b: seq<string>)
    requires ExpectedFollowsBullet(a) && ExpectedFollowsBullet(b)
    ensures ExpectedFollowsBullet(a + b)
  {
    forall p | 0 <= p < |a + b| && IsExpectedLine((a + b)[p])
      ensures p > 0 && IsBulletLine((a + b)[p - 1])
    {
      if p >= |a| {
        assert (a + b)[p] == b[p - |a|];
        assert (a + b)[p - 1] == b[p - 1 - |a|];
      } else {
        assert (a + b)[p] == a[p];
        assert (a + b)[p - 1] == a[p - 1];
      }
    }
  }

  // ---------------------------------------------------------------------------
  // The numbered pairs
  // ---------------------------------------------------------------------------

  /**
   * Pair `i` adds nothing unless its step is filled; then it adds the step's bullet, and the
   * result's expected line right after it exactly when the result is filled too. A result
   * whose step is blank or absent is dropped.
   */
  lemma PairEntriesShape(r: Record, i: nat)
    requires 1 <= i <= MaxPairs
    ensures PairEntries(r, i) == [] <==> !Filled(r, StepKey(i))
    ensures Filled(r, StepKey(i)) ==> PairEntries(r, i)[0] == Bullet(r[StepKey(i)])
    ensures |PairEntries(r, i)| == 2 <==> Filled(r, StepKey(i)) && Filled(r, ResultKey(i))
    ensures |PairEntries(r, i)| == 2 ==> PairEntries(r, i)[1] == ExpectedLine(r[ResultKey(i)])
    ensures |PairEntries(r, i)| <= 2
    ensures ExpectedFollowsBullet(PairEntries(r, i))
  {
    if Filled(r, StepKey(i)) {
      LineKinds(r[StepKey(i)]);
    }
  }

  /** In the lines of pairs 1 to `n`, every expected line directly follows its step's bullet. */
  lemma {:induction false} NumberedEntriesExpectedFollowsBullet(r: Record, n: nat)
    requires n <= MaxPairs
    ensures ExpectedFollowsBullet(NumberedEntries(r, n))
  {
    if n > 0 {
      NumberedEntriesExpectedFollowsBullet(r, n - 1);
      NumberedEntriesStep(r, n);
      PairEntriesShape(r, n);
      ExpectedFollowsBulletAppend(NumberedEntries(r, n - 1), PairEntries(r, n));
    }
  }

  /** Pair `i`'s lines stand, as one block, right after the lines of the pairs before it. */
  lemma {:induction false} NumberedEntriesHoldPair(r: Record, i: nat, n: nat)
    requires 1 <= i <= n <= MaxPairs
    ensures |NumberedEntries(r, i)| <= |NumberedEntries(r, n)|
    ensures NumberedEntries(r, n)[..|NumberedEntries(r, i)|] == NumberedEntries(r, i - 1) + PairEntries(r, i)
  {
    NumberedEntriesStep(r, i);
    if n > i {
      NumberedEntriesHoldPair(r, i, n - 1);
      NumberedEntriesStep(r, n);
      var m := |NumberedEntries(r, i)|;
      assert (NumberedEntries(r, n - 1) + PairEntries(r, n))[..m] == NumberedEntries(r, n - 1)[..m];
    } else {
      assert NumberedEntries(r, n)[..|NumberedEntries(r, i)|] == NumberedEntries(r, n);
    }
  }

  // ---------------------------------------------------------------------------
  // The free-text columns
  // ---------------------------------------------------------------------------

  /** The non-blank lines of `lines`, in order. */
  function NonBlankLines(lines: seq<string>): seq<string>
    decreases |lines|
  {
    if lines == [] then []
    else (if Trim(lines[0]) != [] then [lines[0]] else []) + NonBlankLines(lines[1..])
  }

  lemma {:induction false} NonBlankLinesSnoc(lines: seq<string>, line: string)
    ensures NonBlankLines(lines + [line]) == NonBlankLines(lines) + (if Trim(line) != [] then [line] else [])
    decreases |lines|
  {
    if lines == [] {
      assert lines + [line] == [line];
      assert [line][1..] == [];
    } else {
      assert (lines + [line])[1..] == lines[1..] + [line];
      NonBlankLinesSnoc(lines[1..], line);
      AppendAssoc(if Trim(lines[0]) != [] then [lines[0]] else [], NonBlankLines(lines[1..]),
        if Trim(line) != [] then [line] else []);
    }
  }

  /** The free-text bullets are the bullets of the non-blank lines, one each, in order. */
  lemma {:induction false} LineBulletsOfNonBlankLines(lines: seq<string>)
    ensures |LineBullets(lines)| == |NonBlankLines(lines)|
    ensures forall k :: 0 <= k < |LineBullets(lines)| ==> LineBullets(lines)[k] == Bullet(NonBlankLines(lines)[k])
    decreases |lines|
  {
    if lines != [] {
      var init, last := lines[..|lines| - 1], lines[|lines| - 1];
      assert lines == init + [last];
      LineBulletsOfNonBlankLines(init);
      NonBlankLinesSnoc(init, last);
      var b0, n0 := LineBullets(init), NonBlankLines(init);
      if Trim(last) != [] {
        assert LineBullets(lines) == b0 + [Bullet(last)];
        assert NonBlankLines(lines) == n0 + [last];
        forall k | 0 <= k < |b0| + 1
          ensures (b0 + [Bullet(last)])[k] == Bullet((n0 + [last])[k])
        {
          if k < |b0| {
            assert (b0 + [Bullet(last)])[k] == b0[k];
            assert (n0 + [last])[k] == n0[k];
          }
        }
      } else {
        assert LineBullets(lines) == b0;
        assert NonBlankLines(lines) == n0 + [];
      }
    }
  }

  /** A text that is not all white space has a line that is not blank. */
  lemma {:induction false} SomeLineNotBlank(parts: seq<string>, sep: string)
    requires AllSpace(sep) && !AllSpace(Join(parts, sep))
    ensures NonBlankLines(parts) != []
    decreases |parts|
  {
    if |parts| == 1 {
      assert Join(parts, sep) == parts[0];
    } else {
      assert Join(parts, sep) == parts[0] + sep + Join(parts[1..], sep);
      if Trim(parts[0]) == [] {
        assert !AllSpace(Join(parts[1..], sep)) by {
          AllSpaceConcat(parts[0], sep, Join(parts[1..], sep));
        }
        SomeLineNotBlank(parts[1..], sep);
      }
    }
  }

  lemma AllSpaceConcat(a: string, b: string, c: string)
    requires AllSpace(a) && AllSpace(b)
    ensures AllSpace(a + b + c) <==> AllSpace(c)
  {
    assert forall k :: 0 <= k < |c| ==> (a + b + c)[|a| + |b| + k] == c[k];
  }

  /** Bullets followed by at most one expected line: that line is the only expected one, and it follows a bullet. */
  lemma BulletsThenExpected(bullets: seq<string>, tail: seq<string>)
    requires forall k :: 0 <= k < |bullets| ==> IsBulletLine(bullets[k]) && !IsExpectedLine(bullets[k])
    requires |tail| <= 1 && (tail != [] ==> IsExpectedLine(tail[0]) && bullets != [])
    ensures (bullets + tail)[..|bullets|] == bullets
    ensures tail != [] ==> (bullets + tail)[|bullets + tail| - 1] == tail[0]
    ensures forall p :: 0 <= p < |bullets + tail| ==>
      (IsExpectedLine((bullets + tail)[p]) <==> tail != [] && p == |bullets + tail| - 1)
    ensures ExpectedFollowsBullet(bullets + tail)
  {
    var all := bullets + tail;
    assert forall p :: 0 <= p < |bullets| ==> all[p] == bullets[p];
    assert tail != [] ==> all[|all| - 1] == tail[0];
  }

  /** Every free-text line bullet is a bullet line and no expected line. */
  lemma LineBulletsAreBullets(lines: seq<string>)
    ensures forall k :: 0 <= k < |LineBullets(lines)| ==>
      IsBulletLine(LineBullets(lines)[k]) && !IsExpectedLine(LineBullets(lines)[k])
  {
    LineBulletsOfNonBlankLines(lines);
    forall k | 0 <= k < |LineBullets(lines)|
      ensures IsBulletLine(LineBullets(lines)[k]) && !IsExpectedLine(LineBullets(lines)[k])
    {
      LineKinds(NonBlankLines(lines)[k]);
    }
  }

  /** A `Steps` text that is not blank gives at least one bullet. */
  lemma FilledStepsGiveBullets(text: string)
    requires Trim(text) != []
    ensures LineBullets(Split(text, '\n')) != []
  {
    var lines := Split(text, '\n');
    LineBulletsOfNonBlankLines(lines);
    assert !AllSpace(Join(lines, "\n"));
    SomeLineNotBlank(lines, "\n");
  }

  /**
   * The free-text `Steps` column adds one bullet per non-blank line, in order, then the
   * expected line of `Expected Result` only when that column is filled too; without `Steps` it adds nothing,
   * a filled `Expected Result` included.
   */
  lemma FreeTextEntriesShape(r: Record)
    ensures !Filled(r, "Steps") ==> FreeTextEntries(r) == []
    ensures Filled(r, "Steps") ==>
      var bullets := LineBullets(Split(r["Steps"], '\n'));
      && bullets != []
      && FreeTextEntries(r)[..|bullets|] == bullets
      && |FreeTextEntries(r)| == |bullets| + (if Filled(r, "Expected Result") then 1 else 0)
    ensures Filled(r, "Steps") && Filled(r, "Expected Result") ==>
      FreeTextEntries(r)[|FreeTextEntries(r)| - 1] == ExpectedLine(r["Expected Result"])
    ensures forall p :: 0 <= p < |FreeTextEntries(r)| ==>
      (IsExpectedLine(FreeTextEntries(r)[p]) <==>
        Filled(r, "Expected Result") && p == |FreeTextEntries(r)| - 1)
    ensures ExpectedFollowsBullet(FreeTextEntries(r))
  {
    if Filled(r, "Steps") {
      var lines := Split(r["Steps"], '\n');
      var bullets := LineBullets(lines);
      LineBulletsAreBullets(lines);
      FilledStepsGiveBullets(r["Steps"]);
      var tail := if Filled(r, "Expected Result") then [ExpectedLine(r["Expected Result"])] else [];
      if Filled(r, "Expected Result") {
        LineKinds(r["Expected Result"]);
      }
      assert FreeTextEntries(r) == bullets + tail;
      BulletsThenExpected(bullets, tail);
    }
  }

  // ---------------------------------------------------------------------------
  // The whole step list
  // ---------------------------------------------------------------------------

  /** The precondition entry, when there is one, starts with the `## Precondition` heading. */
  lemma PreconditionEntriesShape(r: Record)
    ensures |PreconditionEntries(r)| == (if HasPrecondition(r) then 1 else 0)
    ensures HasPrecondition(r) ==>
      var entry := PreconditionEntries(r)[0];
      StartsWith(entry, PreconditionHeading) && !IsExpectedLine(entry) && !IsBulletLine(entry)
      && entry[|PreconditionHeading|..] == CleanHtml(PreconditionText(r["Description"]))
  {
    if HasPrecondition(r) {
      HeadingPrefixed(CleanHtml(PreconditionText(r["Description"])));
    }
  }

  /** A line that starts with the precondition heading is neither a bullet nor an expected line. */
  lemma HeadingPrefixed(text: string)
    ensures var entry := PreconditionHeading + text;
      StartsWith(entry, PreconditionHeading) && !IsExpectedLine(entry) && !IsBulletLine(entry)
      && entry[|PreconditionHeading|..] == text
  {
    assert (PreconditionHeading + text)[0] == '\n';
  }

  /**
   * The step list opens with the precondition entry exactly when the description mentions
   * `Preconditions`, then always carries the `## Steps` heading, and every expected line in
   * it directly follows a bullet.
   */
  lemma StepListShape(r: Record)
    ensures var at := if HasPrecondition(r) then 1 else 0;
      |StepList(r)| > at && StepList(r)[at] == StepsHeading
    ensures HasPrecondition(r) <==> StartsWith(StepList(r)[0], PreconditionHeading)
    ensures ExpectedFollowsBullet(StepList(r))
  {
    StepListHeading(r);
    StepListExpectedFollowsBullet(r);
  }

  /** Where the heading sits in a list built as entries, heading, then more entries. */
  lemma HeadingAfter(pre: seq<string>, more: seq<string>)
    ensures |pre + [StepsHeading] + more| > |pre|
    ensures (pre + [StepsHeading] + more)[|pre|] == StepsHeading
    ensures (pre + [StepsHeading] + more)[0] == if pre == [] then StepsHeading else pre[0]
  {
  }

  lemma StepListHeading(r: Record)
    ensures var at := if HasPrecondition(r) then 1 else 0;
      |StepList(r)| > at && StepList(r)[at] == StepsHeading
    ensures HasPrecondition(r) <==> StartsWith(StepList(r)[0], PreconditionHeading)
  {
    StepListParts(r);
    PreconditionEntriesShape(r);
    AppendAssoc(PreconditionEntries(r) + [StepsHeading], NumberedEntries(r, MaxPairs), FreeTextEntries(r));
    HeadingAfter(PreconditionEntries(r), NumberedEntries(r, MaxPairs) + FreeTextEntries(r));
    assert !StartsWith(StepsHeading, PreconditionHeading) by {
      assert StepsHeading[1] != PreconditionHeading[1];
    }
  }

  lemma StepListExpectedFollowsBullet(r: Record)
    ensures ExpectedFollowsBullet(StepList(r))
  {
    StepListParts(r);
    var head := PreconditionEntries(r) + [StepsHeading];
    var numbered, free := NumberedEntries(r, MaxPairs), FreeTextEntries(r);
    assert ExpectedFollowsBullet(head) by {
      PreconditionEntriesShape(r);
      LineKinds("");
    }
    assert ExpectedFollowsBullet(numbered) by {
      NumberedEntriesExpectedFollowsBullet(r, MaxPairs);
    }
    assert ExpectedFollowsBullet(free) by {
      FreeTextEntriesShape(r);
    }
    ExpectedFollowsBulletAppend(head, numbered);
    ExpectedFollowsBulletAppend(head + numbered, free);
  }

  // ---------------------------------------------------------------------------
  // One record
  // ---------------------------------------------------------------------------

  /** The folder path never holds `->`, and a suite name without `->` is the folder as it is. */
  lemma FolderShape(suite: string)
    ensures !Contains(Folder(suite), "->")
    ensures !Contains(suite, "->") ==> Folder(suite) == suite
  {
    ArrowReplaceLeavesNone(suite);
    if !Contains(suite, "->") {
      ReplaceAllWithoutMatch(suite, "->", "/");
    }
  }

  /**
   * A record with a `Suite` becomes the test case whose ID is `TS` and the key, whose folder
   * has no `->`, whose priority is one of the three levels, and whose description is the step
   * list joined by line breaks; the other target columns are empty.
   */
  lemma TransformRecordFields(r: Record)
    ensures TransformRecord(r).Some? <==> "Suite" in r
    ensures "Suite" in r ==>
      var tc := TransformRecord(r).value;
      && tc.id == "TS" + TemplateText(Field(r, "Key"))
      && ("Key" !in r ==> tc.id == "TSundefined")
      && tc.title == OrEmpty(Field(r, "Title"))
      && !Contains(tc.folder, "->") && (!Contains(r["Suite"], "->") ==> tc.folder == r["Suite"])
      && IsPriorityLevel(tc.priority) && tc.priority == MapPriority(Field(r, "Priority"))
      && tc.tags == OrEmpty(Field(r, "Tags")) && tc.owner == OrEmpty(Field(r, "Created By"))
      && tc.description == Join(StepList(r), "\n")
      && tc.emoji == "" && tc.examples == "" && tc.labels == "" && tc.url == "" && tc.matched == ""
  {
    if "Suite" in r {
      FolderShape(r["Suite"]);
    }
  }

  /** The columns the transform reads. */
  const ReadColumns: set<string> := {
    "Title", "Key", "Suite", "Priority", "Tags", "Created By", "Description", "Steps", "Expected Result",
    "Step 1", "Step 2", "Step 3", "Step 4", "Result 1", "Result 2", "Result 3", "Result 4"}

  lemma StepKeysRead(i: nat)
    requires 1 <= i <= MaxPairs
    ensures StepKey(i) in ReadColumns && ResultKey(i) in ReadColumns
  {
    assert StepKey(i) == ["Step 1", "Step 2", "Step 3", "Step 4"][i - 1];
    assert ResultKey(i) == ["Result 1", "Result 2", "Result 3", "Result 4"][i - 1];
  }

  /** `r` and `r'` hold the same cells in every column the transform reads, and lack the same ones. */
  predicate AgreeOnRead(r: Record, r': Record) {
    forall c :: c in ReadColumns ==> (c in r <==> c in r') && (c in r ==> r[c] == r'[c])
  }

  lemma {:induction false} NumberedEntriesFrame(r: Record, r': Record, n: nat)
    requires AgreeOnRead(r, r') && n <= MaxPairs
    ensures NumberedEntries(r', n) == NumberedEntries(r, n)
  {
    if n > 0 {
      NumberedEntriesFrame(r, r', n - 1);
      StepKeysRead(n);
      NumberedEntriesStep(r, n);
      NumberedEntriesStep(r', n);
    }
  }

  /** Two records that agree on the read columns become the same test case. */
  lemma TransformRecordFrame(r: Record, r': Record)
    requires AgreeOnRead(r, r')
    ensures TransformRecord(r') == TransformRecord(r)
  {
    NumberedEntriesFrame(r, r', MaxPairs);
    StepListParts(r);
    StepListParts(r');
    assert PreconditionEntries(r') == PreconditionEntries(r);
    assert FreeTextEntries(r') == FreeTextEntries(r);
  }

  /**
   * Columns the transform does not read change nothing, whether they are set, changed or
   * removed: `Step 5` and later pairs, `Test Type` and any other extra column are ignored.
   */
  lemma TransformRecordIgnoresOtherColumns(r: Record, k: string, v: string)
    requires k !in ReadColumns
    ensures TransformRecord(r[k := v]) == TransformRecord(r)
    ensures TransformRecord(r - {k}) == TransformRecord(r)
  {
    TransformRecordFrame(r, r[k := v]);
    TransformRecordFrame(r, r - {k});
  }

  /** The fifth step pair is never read. */
  lemma FifthStepIgnored(r: Record, v: string)
    ensures TransformRecord(r["Step 5" := v]) == TransformRecord(r)
  {
    TransformRecordIgnoresOtherColumns(r, "Step 5", v);
  }

  // ---------------------------------------------------------------------------
  // The run
  // ---------------------------------------------------------------------------

  /**
   * A run writes output exactly when there is a first record, it has the three required
   * columns and every record has a `Suite`; it then holds one row per record in input
   * order. Otherwise it reports the first of these checks that fails.
   */
  lemma ConvertOutcome(records: seq<Record>)
    ensures Convert(records).Success? <==>
      records != [] && MissingRequired(records[0]) == [] && forall k :: 0 <= k < |records| ==> "Suite" in records[k]
    ensures Convert(records).Success? ==>
      |Convert(records).value| == |records| &&
      forall k :: 0 <= k < |records| ==> TransformRecord(records[k]) == Some(Convert(records).value[k])
    ensures records == [] <==> Convert(records) == Failure(EmptyInput)
    ensures records != [] && MissingRequired(records[0]) != [] ==>
      Convert(records) == Failure(MissingColumns(MissingRequired(records[0])))
    ensures Convert(records).Failure? && Convert(records).error.MissingColumns? ==>
      forall c :: c in Convert(records).error.columns <==> c in RequiredColumns && c !in records[0]
    ensures Convert(records).Failure? && Convert(records).error.MissingSuite? ==>
      var row := Convert(records).error.row;
      row < |records| && "Suite" !in records[row] && forall k :: 0 <= k < row ==> "Suite" in records[k]
  {
    TransformAllOutcome(records);
    if records != [] {
      MissingRequiredExact(records[0]);
    }
  }
}
