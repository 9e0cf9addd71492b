/**
 * The `String.prototype` operations the converter relies on: `trim`, `includes`,
 * `split`, `join` and `replace` with a literal global pattern.
 */
module Text {
  import opened Wrappers

  /**
   * The characters `trim()` and the regular-expression class `\s` treat as white space
   * in this model: the ASCII white-space characters, NO-BREAK SPACE and the byte-order mark.
   */
  predicate IsSpace(c: char) {
    c == ' ' || c == '\t' || c == '\n' || c == '\r' || c == '\U{000B}' || c == '\U{000C}'
    || c == '\U{00A0}' || c == '\U{FEFF}'
  }

  predicate AllSpace(s: string) {
    forall i :: 0 <= i < |s| ==> IsSpace(s[i])
  }

  /** Neither the first nor the last character of `s` is white space. */
  predicate NoEdgeSpace(s: string) {
    s == [] || (!IsSpace(s[0]) && !IsSpace(s[|s| - 1]))
  }

  /** The index of the first non-space character of `s` at or after `from`, or `|s|` when there is none. */
  function SkipSpace(s: string, from: nat): (i: nat)
    requires from <= |s|
    ensures from <= i <= |s|
    ensures forall k :: from <= k < i ==> IsSpace(s[k])
    ensures i < |s| ==> !IsSpace(s[i])
    decreases |s| - from
  {
    if from < |s| && IsSpace(s[from]) then SkipSpace(s, from + 1) else from
  }

  /** The end of `s[lo..hi]` once its trailing white space is cut away. */
  function SkipSpaceBack(s: string, lo: nat, hi: nat): (j: nat)
    requires lo <= hi <= |s|
    ensures lo <= j <= hi
    ensures forall k :: j <= k < hi ==> IsSpace(s[k])
    ensures j > lo ==> !IsSpace(s[j - 1])
    decreases hi
  {
    if hi > lo && IsSpace(s[hi - 1]) then SkipSpaceBack(s, lo, hi - 1) else hi
  }

  /** The number of white-space characters `trim()` cuts from the front of `s`. */
  function LeadingSpace(s: string): (n: nat)
    ensures n <= |s|
  {
    SkipSpace(s, 0)
  }

  /**
   * `s.trim()`: the slice of `s` that starts and ends with a non-space character,
   * where everything cut away on either side is white space.
   */
  function Trim(s: string): (r: string)
    ensures NoEdgeSpace(r)
    ensures var i := LeadingSpace(s);
      i + |r| <= |s| && r == s[i..i + |r|]
      && (forall k :: 0 <= k < i ==> IsSpace(s[k]))
      && (forall k :: i + |r| <= k < |s| ==> IsSpace(s[k]))
    ensures r == [] <==> AllSpace(s)
  {
    var i := SkipSpace(s, 0);
    var j := SkipSpaceBack(s, i, |s|);
    s[i..j]
  }

  /** `pat` occurs in `s` at index `i`. */
  predicate OccursAt(s: string, pat: string, i: nat) {
    i + |pat| <= |s| && s[i..i + |pat|] == pat
  }

  /** The first index at or after `from` where `pat` occurs in `s`. */
  function IndexFrom(s: string, pat: string, from: nat): (r: Option<nat>)
    requires from <= |s|
    ensures r.Some? ==> from <= r.value && OccursAt(s, pat, r.value)
    ensures r.Some? ==> forall k :: from <= k < r.value ==> !OccursAt(s, pat, k)
    ensures r.None? ==> forall k :: from <= k ==> !OccursAt(s, pat, k)
    decreases |s| - from
  {
    if OccursAt(s, pat, from) then Some(from)
    else if from == |s| then None
    else IndexFrom(s, pat, from + 1)
  }

  /** `s.indexOf(pat)`, with `None` for -1. */
  function IndexOf(s: string, pat: string): (r: Option<nat>)
    ensures r.Some? ==> OccursAt(s, pat, r.value) && forall k :: 0 <= k < r.value ==> !OccursAt(s, pat, k)
    ensures r.None? <==> forall k :: !OccursAt(s, pat, k)
  {
    IndexFrom(s, pat, 0)
  }

  /** `s.includes(pat)`. */
  predicate Contains(s: string, pat: string) {
    IndexOf(s, pat).Some?
  }

  /** `s.startsWith(p)`. */
  predicate StartsWith(s: string, p: string) {
    |p| <= |s| && s[..|p|] == p
  }

  /**
   * `s.split(sep)[1]` where `sep` occurs in `s`: the text after the first occurrence of
   * `sep`, up to the next occurrence or to the end. It holds no occurrence of `sep`.
   */
  function SecondPiece(s: string, sep: string): (piece: string)
    requires sep != [] && Contains(s, sep)
    ensures var after := IndexOf(s, sep).value + |sep|;
      after + |piece| <= |s| && piece == s[after..after + |piece|]
      && (after + |piece| == |s| || OccursAt(s, sep, after + |piece|))
    ensures !Contains(piece, sep)
    ensures var after := IndexOf(s, sep).value + |sep|;
      forall k :: after <= k < after + |piece| ==> !OccursAt(s, sep, k)
  {
    var after := IndexOf(s, sep).value + |sep|;
    var rest := s[after..];
    assert s == s[..after] + rest;
    match IndexOf(rest, sep)
    case None =>
      NoOccurrenceShifted(s, sep, after, |rest|);
      rest
    case Some(j) =>
      OccursAtShift(s[..after], rest, sep, j);
      NoOccurrenceShifted(s, sep, after, j);
      var piece := rest[..j];
      assert forall k: nat :: !OccursAt(piece, sep, k) by {
        forall k: nat ensures !OccursAt(piece, sep, k) { OccursInSlice(rest, sep, 0, j, k); }
      }
      piece
  }

  /**
   * `s.replace(/pat/g, rep)` for a pattern that matches only the literal text `pat`:
   * scanning left to right, each occurrence that starts where the scan stands is
   * replaced and the scan resumes after it.
   */
  function ReplaceAll(s: string, pat: string, rep: string): string
    requires pat != []
    decreases |s|
  {
    if s == [] then []
    else if OccursAt(s, pat, 0) then rep + ReplaceAll(s[|pat|..], pat, rep)
    else [s[0]] + ReplaceAll(s[1..], pat, rep)
  }

  /** `parts.join(sep)`. */
  function Join(parts: seq<string>, sep: string): string
    decreases |parts|
  {
    if |parts| == 0 then []
    else if |parts| == 1 then parts[0]
    else parts[0] + sep + Join(parts[1..], sep)
  }

  /**
   * `s.split(d)` for a one-character separator: the pieces between the separators,
   * none of which holds `d`, and which joined with `d` give back `s`.
   */
  function Split(s: string, d: char): (parts: seq<string>)
    ensures |parts| >= 1
    ensures forall i :: 0 <= i < |parts| ==> d !in parts[i]
    ensures Join(parts, [d]) == s
    decreases |s|
  {
    if s == [] then [[]]
    else
      var rest := Split(s[1..], d);
      if s[0] == d then
        assert ([[]] + rest)[1..] == rest;
        [[]] + rest
      else
        var parts := [[s[0]] + rest[0]] + rest[1..];
        assert parts[1..] == rest[1..];
        assert s == [s[0]] + s[1..];
        parts
  }

  // ---------------------------------------------------------------------------
  // Facts about occurrences
  // ---------------------------------------------------------------------------

  /** An occurrence in `t` is an occurrence in `u + t`, shifted by `|u|`, and back. */
  lemma OccursAtShift(u: string, t: string, pat: string, k: nat)
    ensures OccursAt(u + t, pat, |u| + k) <==> OccursAt(t, pat, k)
  {
    if k + |pat| <= |t| {
      assert (u + t)[|u| + k..|u| + k + |pat|] == t[k..k + |pat|];
    }
  }

  /** No occurrence in the first `m` positions of `s[after..]` is no occurrence in `s` at `after` to `after + m`. */
  lemma NoOccurrenceShifted(s: string, pat: string, after: nat, m: nat)
    requires after + m <= |s|
    requires forall k :: 0 <= k < m ==> !OccursAt(s[after..], pat, k)
    ensures forall k :: after <= k < after + m ==> !OccursAt(s, pat, k)
  {
    assert s == s[..after] + s[after..];
    forall k | after <= k < after + m ensures !OccursAt(s, pat, k) {
      OccursAtShift(s[..after], s[after..], pat, k - after);
    }
  }

  /** A two-character pattern occurs at `k` exactly when its two characters stand there. */
  lemma OccursAtPair(s: string, pat: string, k: nat)
    requires |pat| == 2
    ensures OccursAt(s, pat, k) <==> k + 2 <= |s| && s[k] == pat[0] && s[k + 1] == pat[1]
  {
    if k + 2 <= |s| && s[k] == pat[0] && s[k + 1] == pat[1] {
      assert s[k..k + 2] == pat;
    }
  }

  /** An occurrence inside a slice is an occurrence in the whole string. */
  lemma OccursInSlice(s: string, pat: string, i: nat, j: nat, k: nat)
    requires i <= j <= |s|
    ensures OccursAt(s[i..j], pat, k) ==> OccursAt(s, pat, i + k)
  {
    if OccursAt(s[i..j], pat, k) {
      forall x | 0 <= x < |pat| ensures s[i + k + x] == pat[x] {
        assert s[i..j][k..k + |pat|][x] == pat[x];
      }
      assert s[i + k..i + k + |pat|] == pat;
    }
  }

  /** Trimming cannot create an occurrence of a pattern that `s` lacks. */
  lemma {:induction false} TrimKeepsAbsence(s: string, pat: string)
    requires !Contains(s, pat)
    ensures !Contains(Trim(s), pat)
  {
    var r := Trim(s);
    var i := LeadingSpace(s);
    assert r == s[i..i + |r|];
    assert forall k :: !OccursAt(s, pat, k);
    forall k: nat ensures !OccursAt(r, pat, k) {
      OccursInSlice(s, pat, i, i + |r|, k);
    }
    assert IndexOf(r, pat).None?;
  }

  /** A string without an occurrence of `pat` is left as it is by the global replace. */
  lemma {:induction false} ReplaceAllWithoutMatch(s: string, pat: string, rep: string)
    requires pat != [] && !Contains(s, pat)
    ensures ReplaceAll(s, pat, rep) == s
    decreases |s|
  {
    if s != [] {
      assert !OccursAt(s, pat, 0);
      assert [s[0]] + s[1..] == s;
      forall k: nat ensures !OccursAt(s[1..], pat, k) {
        OccursAtShift([s[0]], s[1..], pat, k);
      }
      ReplaceAllWithoutMatch(s[1..], pat, rep);
    }
  }

  /** The first character of `ReplaceAll(t, "->", "/")`. */
  lemma ArrowReplaceHead(t: string)
    requires t != []
    ensures var r := ReplaceAll(t, "->", "/");
      r != [] && r[0] == (if OccursAt(t, "->", 0) then '/' else t[0])
  {
  }

  /**
   * After `replace(/->/g, '/')` no `->` is left: the slash put in cannot start or end
   * an arrow, and a `-` copied over was not followed by `>`.
   */
  lemma {:induction false} ArrowReplaceLeavesNone(s: string)
    ensures !Contains(ReplaceAll(s, "->", "/"), "->")
    decreases |s|
  {
    var r := ReplaceAll(s, "->", "/");
    if s != [] {
      var replaced := OccursAt(s, "->", 0);
      var t := if replaced then s[2..] else s[1..];
      var head := if replaced then "/" else [s[0]];
      var rt := ReplaceAll(t, "->", "/");
      assert r == head + rt;
      ArrowReplaceLeavesNone(t);
      OccursAtPair(s, "->", 0);
      assert r[0] != '-' || |r| < 2 || r[1] != '>' by {
        if !replaced && s[0] == '-' && |s| >= 2 {
          ArrowReplaceHead(t);
          assert r[1] == rt[0];
        }
      }
      forall k: nat ensures !OccursAt(r, "->", k) {
        OccursAtPair(r, "->", k);
        if k > 0 {
          OccursAtShift(head, rt, "->", k - 1);
        }
      }
    }
  }

  /** A result of removing `**` pairs that starts with `*` came from a string starting with `*`. */
  lemma BoldRemoveHead(t: string)
    ensures var r := ReplaceAll(t, "**", "");
      r != [] && r[0] == '*' ==> t != [] && t[0] == '*'
  {
  }

  /**
   * After `replace(/\*\*\/g, '')` no `**` is left: a `*` that is copied over was not
   * followed by another `*`, and what follows it in the result starts with a character
   * that followed it in the input.
   */
  lemma {:induction false} BoldRemoveLeavesNone(s: string)
    ensures !Contains(ReplaceAll(s, "**", ""), "**")
    decreases |s|
  {
    var r := ReplaceAll(s, "**", "");
    if s != [] {
      if OccursAt(s, "**", 0) {
        assert r == ReplaceAll(s[2..], "**", "");
        BoldRemoveLeavesNone(s[2..]);
      } else {
        var rt := ReplaceAll(s[1..], "**", "");
        assert r == [s[0]] + rt;
        BoldRemoveLeavesNone(s[1..]);
        OccursAtPair(s, "**", 0);
        BoldRemoveHead(s[1..]);
        assert r[0] != '*' || |r| < 2 || r[1] != '*' by {
          if |r| >= 2 { assert r[1] == rt[0]; }
        }
        forall k: nat ensures !OccursAt(r, "**", k) {
          OccursAtPair(r, "**", k);
          if k > 0 {
            OccursAtShift([s[0]], rt, "**", k - 1);
          }
        }
      }
    }
  }
}
