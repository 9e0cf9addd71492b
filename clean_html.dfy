/**
 * `cleanHtml` of convert.js: a fixed chain of global regular-expression replacements
 * followed by `trim()`. Each replacement is a left-to-right scan that, at each position,
 * either replaces the match that starts there and resumes after it, or copies one
 * character. Each matcher is paired with a predicate saying what a whole match of its
 * regular expression looks like.
 */
module HtmlClean {
  import opened Wrappers
  import opened Text

  /** Lower-casing of ASCII letters, which is all the `i` flag needs for these patterns. */
  function ToLower(c: char): char {
    if 'A' <= c <= 'Z' then (c as int + 32) as char else c
  }

  /** The end of the run of white space in `s` that starts at `i`. */
  function SpaceRun(s: string, i: nat): (j: nat)
    requires i <= |s|
    ensures i <= j <= |s|
    ensures forall k :: i <= k < j ==> IsSpace(s[k])
    ensures j == |s| || !IsSpace(s[j])
    decreases |s| - i
  {
    if i < |s| && IsSpace(s[i]) then SpaceRun(s, i + 1) else i
  }

  /** The first index at or after `i` where `c` stands in `s`. */
  function FindChar(s: string, c: char, i: nat): (r: Option<nat>)
    requires i <= |s|
    ensures r.Some? ==> i <= r.value < |s| && s[r.value] == c
    ensures r.Some? ==> forall k :: i <= k < r.value ==> s[k] != c
    ensures r.None? ==> forall k :: i <= k < |s| ==> s[k] != c
    decreases |s| - i
  {
    if i == |s| then None
    else if s[i] == c then Some(i)
    else FindChar(s, c, i + 1)
  }

  /** The last index in `[lo, hi)` where `c` stands in `s`. */
  function LastIndexIn(s: string, c: char, lo: nat, hi: nat): (r: Option<nat>)
    requires lo <= hi <= |s|
    ensures r.Some? ==> lo <= r.value < hi && s[r.value] == c
    ensures r.Some? ==> forall k :: r.value < k < hi ==> s[k] != c
    ensures r.None? ==> forall k :: lo <= k < hi ==> s[k] != c
    decreases hi - lo
  {
    if lo == hi then None
    else if s[hi - 1] == c then Some(hi - 1)
    else LastIndexIn(s, c, lo, hi - 1)
  }

  // ---------------------------------------------------------------------------
  // Line-break tags: .replace(/<br\s*\/?>/gi, '\n')
  // ---------------------------------------------------------------------------

  /** `s[..n]` is a whole match of `/<br\s*\/?>/i`. */
  predicate IsBrTagAt(s: string, n: nat) {
    && 4 <= n <= |s| && s[0] == '<' && ToLower(s[1]) == 'b' && ToLower(s[2]) == 'r' && s[n - 1] == '>'
    && ((forall k :: 3 <= k < n - 1 ==> IsSpace(s[k]))
        || (n >= 5 && s[n - 2] == '/' && forall k :: 3 <= k < n - 2 ==> IsSpace(s[k])))
  }

  /** The length of the line-break tag that starts `s`, if one does. */
  function BrMatch(s: string): (m: Option<nat>)
    ensures m.Some? ==> IsBrTagAt(s, m.value)
  {
    if |s| >= 3 && s[0] == '<' && ToLower(s[1]) == 'b' && ToLower(s[2]) == 'r' then
      var j := SpaceRun(s, 3);
      var k := if j < |s| && s[j] == '/' then j + 1 else j;
      if k < |s| && s[k] == '>' then Some(k + 1) else None
    else None
  }

  /** Every line-break tag at the start of `s` is the one `BrMatch` finds. */
  lemma BrMatchFindsEveryTag(s: string, n: nat)
    requires IsBrTagAt(s, n)
    ensures BrMatch(s) == Some(n)
  {
    var j := SpaceRun(s, 3);
    if forall k :: 3 <= k < n - 1 ==> IsSpace(s[k]) {
      assert j == n - 1;
    } else {
      assert j == n - 2;
    }
  }

  function ReplaceBr(s: string): string
    decreases |s|
  {
    if s == [] then []
    else match BrMatch(s)
      case Some(n) => "\n" + ReplaceBr(s[n..])
      case None => [s[0]] + ReplaceBr(s[1..])
  }

  // ---------------------------------------------------------------------------
  // Block tags: .replace(/<\/?(p|span|div|ul|li)[^>]*>/gi, '')
  // ---------------------------------------------------------------------------

  /** The lower-case word `w` stands in `s` at index `i` and ends by `hi`, letters compared without regard to case. */
  predicate WordWithin(s: string, i: nat, hi: nat, w: string) {
    i + |w| <= hi <= |s| && forall k :: 0 <= k < |w| ==> ToLower(s[i + k]) == w[k]
  }

  /** An alternative of the tag-name group `(p|span|div|ul|li)` stands at `i` and ends by `hi`. */
  predicate BlockTagNameWithin(s: string, i: nat, hi: nat) {
    || WordWithin(s, i, hi, "p") || WordWithin(s, i, hi, "span") || WordWithin(s, i, hi, "div")
    || WordWithin(s, i, hi, "ul") || WordWithin(s, i, hi, "li")
  }

  /**
   * `s[..n]` is a whole match of `/<\/?(p|span|div|ul|li)[^>]*>/i`: an opening or closing
   * angle bracket, a tag name, then anything but `>` up to the one `>` that ends it.
   */
  predicate IsBlockTagAt(s: string, n: nat) {
    && 3 <= n <= |s| && s[0] == '<' && s[n - 1] == '>'
    && (forall k :: 0 <= k < n - 1 ==> s[k] != '>')
    && BlockTagNameWithin(s, if s[1] == '/' then 2 else 1, n - 1)
  }

  /** A tag name holds no `>`. */
  lemma WordWithinHasNoBracket(s: string, i: nat, hi: nat, w: string)
    requires WordWithin(s, i, hi, w) && forall k :: 0 <= k < |w| ==> 'a' <= w[k] <= 'z'
    ensures forall k :: i <= k < i + |w| ==> s[k] != '>'
  {
    forall k | i <= k < i + |w| ensures s[k] != '>' {
      assert ToLower(s[i + (k - i)]) == w[k - i];
    }
  }

  /** The length of the first alternative of the tag-name group at index `i`, tried in the order the pattern lists them. */
  function TagNameLength(s: string, i: nat): (n: Option<nat>)
    ensures n.Some? ==> 0 < n.value && BlockTagNameWithin(s, i, i + n.value)
    ensures n.Some? ==> forall k :: i <= k < i + n.value ==> s[k] != '>'
    ensures n.None? <==> !BlockTagNameWithin(s, i, |s|)
  {
    if WordWithin(s, i, |s|, "p") then WordWithinHasNoBracket(s, i, |s|, "p"); Some(1)
    else if WordWithin(s, i, |s|, "span") then WordWithinHasNoBracket(s, i, |s|, "span"); Some(4)
    else if WordWithin(s, i, |s|, "div") then WordWithinHasNoBracket(s, i, |s|, "div"); Some(3)
    else if WordWithin(s, i, |s|, "ul") then WordWithinHasNoBracket(s, i, |s|, "ul"); Some(2)
    else if WordWithin(s, i, |s|, "li") then WordWithinHasNoBracket(s, i, |s|, "li"); Some(2)
    else None
  }

  /** The length of the block tag that starts `s`, if one does. */
  function TagMatch(s: string): (m: Option<nat>)
    ensures m.Some? ==> IsBlockTagAt(s, m.value)
  {
    if |s| >= 2 && s[0] == '<' then
      var j := if s[1] == '/' then 2 else 1;
      match TagNameLength(s, j)
      case None => None
      case Some(len) =>
        match FindChar(s, '>', j + len)
        case None => None
        case Some(g) => Some(g + 1)
    else None
  }

  /** Every block tag at the start of `s` is the one `TagMatch` finds. */
  lemma TagMatchFindsEveryTag(s: string, n: nat)
    requires IsBlockTagAt(s, n)
    ensures TagMatch(s) == Some(n)
  {
    var j := if s[1] == '/' then 2 else 1;
    var len := TagNameLength(s, j).value;
    var f := FindChar(s, '>', j + len);
    assert f == Some(n - 1);
  }

  function StripBlockTags(s: string): string
    decreases |s|
  {
    if s == [] then []
    else match TagMatch(s)
      case Some(n) => StripBlockTags(s[n..])
      case None => [s[0]] + StripBlockTags(s[1..])
  }

  // ---------------------------------------------------------------------------
  // Blank lines: .replace(/\n\s*\n/g, '\n')
  // ---------------------------------------------------------------------------

  /** `s[i..j]` is a match of `/\n\s*\n/`: two line breaks with only white space between. */
  predicate BlankRunAt(s: string, i: nat, j: nat) {
    i + 2 <= j <= |s| && s[i] == '\n' && s[j - 1] == '\n' && forall k :: i < k < j - 1 ==> IsSpace(s[k])
  }

  /**
   * The length of the match of `/\n\s*\n/` at the start of `s`: the greedy `\s*` takes
   * the whole run of white space and gives back characters until a line break follows,
   * so the match ends at the last line break of that run.
   */
  function BlankRunMatch(s: string): (m: Option<nat>)
    ensures m.Some? ==> BlankRunAt(s, 0, m.value)
  {
    if s != [] && s[0] == '\n' then
      var e := SpaceRun(s, 1);
      match LastIndexIn(s, '\n', 1, e)
      case None => None
      case Some(k) => Some(k + 1)
    else None
  }

  /** Every blank-line run at the start of `s` is at most as long as the one `BlankRunMatch` takes. */
  lemma BlankRunMatchIsLongest(s: string, n: nat)
    requires BlankRunAt(s, 0, n)
    ensures BlankRunMatch(s).Some? && n <= BlankRunMatch(s).value
  {
    var e := SpaceRun(s, 1);
    assert n - 1 < e;
  }

  function CollapseBlankLines(s: string): string
    decreases |s|
  {
    if s == [] then []
    else match BlankRunMatch(s)
      case Some(n) => "\n" + CollapseBlankLines(s[n..])
      case None => [s[0]] + CollapseBlankLines(s[1..])
  }

  // ---------------------------------------------------------------------------
  // The whole chain
  // ---------------------------------------------------------------------------

  /**
   * `cleanHtml(text)`: the empty string stays empty; otherwise line-break tags become line
   * breaks, block tags are dropped, blank-line runs collapse, `**` is removed and the
   * result is trimmed, so it never starts or ends with white space.
   */
  function CleanHtml(text: string): (r: string)
    ensures NoEdgeSpace(r)
    ensures text == [] ==> r == []
  {
    if text == [] then []
    else Trim(ReplaceAll(CollapseBlankLines(StripBlockTags(ReplaceBr(text))), "**", ""))
  }

  /** No `**` survives `cleanHtml`: trimming cannot bring one back. */
  lemma CleanHtmlRemovesBold(text: string)
    ensures !Contains(CleanHtml(text), "**")
  {
    if text != [] {
      var collapsed := CollapseBlankLines(StripBlockTags(ReplaceBr(text)));
      BoldRemoveLeavesNone(collapsed);
      TrimKeepsAbsence(ReplaceAll(collapsed, "**", ""), "**");
    }
  }

  // ---------------------------------------------------------------------------
  // Properties of the passes
  // ---------------------------------------------------------------------------

  /** No two line breaks of `r` have only white space between them. */
  predicate NoBlankLineRun(r: string) {
    forall i, j :: 0 <= i < j <= |r| ==> !BlankRunAt(r, i, j)
  }

  /** Characters other than a line break never start a blank-line run, so they are copied. */
  lemma {:induction false} CollapseCopiesLineFreePrefix(w: string, u: string)
    requires '\n' !in w
    ensures CollapseBlankLines(w + u) == w + CollapseBlankLines(u)
    decreases |w|
  {
    if w != [] {
      var s := w + u;
      assert s[0] == w[0] && w[0] != '\n';
      assert BlankRunMatch(s) == None;
      assert s[1..] == w[1..] + u;
      assert '\n' !in w[1..] by {
        forall k | 0 <= k < |w| - 1 ensures w[1..][k] != '\n' { assert w[1..][k] == w[k + 1]; }
      }
      CollapseCopiesLineFreePrefix(w[1..], u);
      calc {
        CollapseBlankLines(s);
        [s[0]] + CollapseBlankLines(s[1..]);
        [w[0]] + CollapseBlankLines(w[1..] + u);
        [w[0]] + (w[1..] + CollapseBlankLines(u));
        { assert [w[0]] + w[1..] == w; }
        w + CollapseBlankLines(u);
      }
    } else {
      assert w + u == u;
    }
  }

  /** The white-space run after position `i` ends at the same place from anywhere inside it. */
  lemma SpaceRunFromInside(s: string, i: nat, j: nat)
    requires i <= |s| && i <= j <= SpaceRun(s, i)
    ensures SpaceRun(s, j) == SpaceRun(s, i)
  {
  }

  /**
   * A line break, then white space without a line break, then text that does not start
   * with white space: no blank-line run starts at that first line break.
   */
  lemma NoRunFromLoneBreak(w: string, rest: string, j: nat)
    requires '\n' !in w
    requires rest == [] || !IsSpace(rest[0])
    ensures !BlankRunAt("\n" + w + rest, 0, j)
  {
    var r := "\n" + w + rest;
    if 2 <= j <= |r| {
      if j - 1 <= |w| {
        assert r[j - 1] == w[j - 2];
      } else {
        assert r[|w| + 1] == rest[0];
      }
    }
  }

  /** A run that does not start at the first character is a run of the string without it. */
  lemma RunInTail(c: char, rest: string, i: nat, j: nat)
    requires 0 < i < j
    ensures BlankRunAt([c] + rest, i, j) == BlankRunAt(rest, i - 1, j - 1)
  {
    var r := [c] + rest;
    if j <= |r| && i + 2 <= j {
      assert forall k :: i - 1 <= k < j - 1 ==> r[k + 1] == rest[k];
      assert (forall k :: i < k < j - 1 ==> IsSpace(r[k])) <==> (forall k :: i - 1 < k < j - 2 ==> IsSpace(rest[k])) by {
        forall k | i - 1 < k < j - 2 ensures IsSpace(r[k + 1]) == IsSpace(rest[k]) {}
        forall k | i < k < j - 1 ensures IsSpace(r[k]) == IsSpace(rest[k - 1]) {}
      }
    }
  }

  /**
   * A line break followed by the collapsed rest of `s` from `lo` on starts no blank-line
   * run, when the white space that stands at `lo` holds no line break.
   */
  lemma BreakBeforeLineFreeSpace(s: string, lo: nat)
    requires lo <= |s|
    requires forall k :: lo <= k < SpaceRun(s, lo) ==> s[k] != '\n'
    requires NoBlankLineRun(CollapseBlankLines(s[lo..]))
    ensures NoBlankLineRun("\n" + CollapseBlankLines(s[lo..]))
  {
    var e := SpaceRun(s, lo);
    CollapseAfterSpaceRun(s, lo);
    var w, cu := s[lo..e], CollapseBlankLines(s[e..]);
    LoneBreakBeforeRunFree(w, cu);
    assert "\n" + (w + cu) == "\n" + w + cu;
  }

  /**
   * The white space at `lo`, when it holds no line break, is copied by the collapse, and what
   * follows it collapses to text that does not start with white space.
   */
  lemma CollapseAfterSpaceRun(s: string, lo: nat)
    requires lo <= |s|
    requires forall k :: lo <= k < SpaceRun(s, lo) ==> s[k] != '\n'
    ensures var e := SpaceRun(s, lo);
      && '\n' !in s[lo..e]
      && CollapseBlankLines(s[lo..]) == s[lo..e] + CollapseBlankLines(s[e..])
      && (CollapseBlankLines(s[e..]) == [] || !IsSpace(CollapseBlankLines(s[e..])[0]))
  {
    var e := SpaceRun(s, lo);
    var w, u := s[lo..e], s[e..];
    assert s[lo..] == w + u;
    assert '\n' !in w by {
      forall k | 0 <= k < |w| ensures w[k] != '\n' { assert w[k] == s[lo + k]; }
    }
    CollapseCopiesLineFreePrefix(w, u);
    if u != [] {
      CollapseKeepsFirst(u);
    }
  }

  /** A first character that is not a line break is copied. */
  lemma CollapseKeepsFirst(u: string)
    requires u != [] && u[0] != '\n'
    ensures CollapseBlankLines(u) != [] && CollapseBlankLines(u)[0] == u[0]
  {
  }

  /** A line break before run-free text that starts with white space free of line breaks adds no run. */
  lemma LoneBreakBeforeRunFree(w: string, rest: string)
    requires '\n' !in w
    requires rest == [] || !IsSpace(rest[0])
    requires NoBlankLineRun(w + rest)
    ensures NoBlankLineRun("\n" + w + rest)
  {
    var r := "\n" + w + rest;
    assert r == "\n" + (w + rest);
    forall i, j | 0 <= i < j <= |r| ensures !BlankRunAt(r, i, j) {
      if i == 0 {
        NoRunFromLoneBreak(w, rest, j);
      } else {
        RunInTail('\n', w + rest, i, j);
      }
    }
  }

  /** After `.replace(/\n\s*\n/g, '\n')` no blank-line run is left. */
  lemma {:induction false} CollapseLeavesNoBlankRun(s: string)
    ensures NoBlankLineRun(CollapseBlankLines(s))
    decreases |s|
  {
    if s != [] {
      var r := CollapseBlankLines(s);
      match BlankRunMatch(s)
      case Some(n) =>
        CollapseLeavesNoBlankRun(s[n..]);
        SpaceRunFromInside(s, 1, n);
        BreakBeforeLineFreeSpace(s, n);
      case None =>
        CollapseLeavesNoBlankRun(s[1..]);
        var rest := CollapseBlankLines(s[1..]);
        assert r == [s[0]] + rest;
        if s[0] == '\n' {
          BreakBeforeLineFreeSpace(s, 1);
        } else {
          forall i, j | 0 <= i < j <= |r| ensures !BlankRunAt(r, i, j) {
            if i > 0 {
              RunInTail(s[0], rest, i, j);
            }
          }
        }
    }
  }

  /** Text without `<` has no tag for the first two passes to change. */
  lemma {:induction false} TagPassesKeepTagFreeText(s: string)
    requires '<' !in s
    ensures ReplaceBr(s) == s && StripBlockTags(s) == s
    decreases |s|
  {
    if s != [] {
      TagPassesKeepTagFreeText(s[1..]);
    }
  }

  /**
   * `cleanHtml` changes only markup: trimmed text without `<`, line breaks or `**`
   * comes back unchanged.
   */
  lemma CleanHtmlKeepsPlainText(s: string)
    requires '<' !in s && '\n' !in s && !Contains(s, "**") && NoEdgeSpace(s)
    ensures CleanHtml(s) == s
  {
    if s != [] {
      TagPassesKeepTagFreeText(s);
      CollapseCopiesLineFreePrefix(s, []);
      assert s + [] == s;
      ReplaceAllWithoutMatch(s, "**", "");
    }
  }
}
