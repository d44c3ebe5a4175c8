/**
 * The redaction engine: applies a removal plan to a sanitization result by
 * excising, per segment, the union of the planned ranges (clamped into the
 * content, merged, and fused across short punctuation-only gaps).
 */
module ApplyRemovalPlan {
  import opened Wrappers
  import opened Js
  import opened SharedTypes
  import opened AalTypes
  import opened IslTypes
  import opened BuildRemovalPlan

  // ---------------------------------------------------------------------------
  // Coverage
  // ---------------------------------------------------------------------------

  /** Offset `i` lies inside range `r` (start inclusive, end exclusive). */
  predicate InRange(r: Position, i: int) {
    r.start <= i < r.end
  }

  /** Offset `i` lies inside some range of `rs`. */
  predicate Covered(rs: seq<Position>, i: int) {
    exists k :: 0 <= k < |rs| && InRange(rs[k], i)
  }

  lemma CoveredByMember(rs: seq<Position>, r: Position, i: int)
    requires r in rs && InRange(r, i)
    ensures Covered(rs, i)
  {
    var k :| 0 <= k < |rs| && rs[k] == r;
  }

  lemma CoveredAppend(rs: seq<Position>, r: Position, i: int)
    ensures Covered(rs + [r], i) <==> Covered(rs, i) || InRange(r, i)
  {
    if Covered(rs, i) {
      var k :| 0 <= k < |rs| && InRange(rs[k], i);
      assert (rs + [r])[k] == rs[k];
    }
    if InRange(r, i) {
      assert (rs + [r])[|rs|] == r;
    }
    if Covered(rs + [r], i) {
      var k :| 0 <= k < |rs + [r]| && InRange((rs + [r])[k], i);
      if k < |rs| {
        assert (rs + [r])[k] == rs[k];
      }
    }
  }

  /** Ranges listed in order of non-decreasing start. */
  predicate SortedByStart(rs: seq<Position>) {
    forall j, k :: 0 <= j < k < |rs| ==> rs[j].start <= rs[k].start
  }

  /** Every range holds at least one offset. */
  predicate NonEmptyRanges(rs: seq<Position>) {
    forall k :: 0 <= k < |rs| ==> rs[k].start < rs[k].end
  }

  /** Each range ends strictly before the next one starts, so neither overlapping
      nor touching ranges remain. */
  predicate Separated(rs: seq<Position>) {
    forall k :: 0 <= k < |rs| - 1 ==> rs[k].end < rs[k + 1].start
  }

  /** Every range lies inside [0, len]. */
  predicate WithinContent(rs: seq<Position>, len: int) {
    forall k :: 0 <= k < |rs| ==> 0 <= rs[k].start && rs[k].end <= len
  }

  /** Non-empty separated ranges are strictly increasing in both ends. */
  lemma {:induction false} SeparatedIsIncreasing(rs: seq<Position>, j: int, k: int)
    requires Separated(rs) && NonEmptyRanges(rs)
    requires 0 <= j < k < |rs|
    ensures rs[j].end < rs[k].start
    decreases k - j
  {
    if j + 1 < k {
      SeparatedIsIncreasing(rs, j + 1, k);
    }
  }

  // ---------------------------------------------------------------------------
  // clampRangesToContent
  // ---------------------------------------------------------------------------

  /** `Math.max(0, Math.min(x, len))`. */
  function ClampOffset(x: int, len: int): int {
    MaxInt(0, MinInt(x, len))
  }

  /** Each range clamped into [0, len], keeping those that stay non-empty, in order. */
  function ClampedRanges(rs: seq<Position>, len: int): (r: seq<Position>)
    ensures |r| <= |rs|
    ensures NonEmptyRanges(r) && WithinContent(r, len)
    ensures len <= 0 ==> r == []
  {
    if |rs| == 0 then []
    else
      var last := rs[|rs| - 1];
      var c := Position(ClampOffset(last.start, len), ClampOffset(last.end, len));
      ClampedRanges(rs[..|rs| - 1], len) + (if c.start < c.end then [c] else [])
  }

  /** `clampRangesToContent`. */
  method ClampRangesToContent(ranges: seq<Position>, contentLength: int) returns (result: seq<Position>)
    ensures result == ClampedRanges(ranges, contentLength)
  {
    if contentLength <= 0 || |ranges| == 0 {
      return [];
    }
    result := [];
    for i := 0 to |ranges|
      invariant result == ClampedRanges(ranges[..i], contentLength)
    {
      assert ranges[..i + 1][..i] == ranges[..i];
      var r := ranges[i];
      var start := MaxInt(0, MinInt(r.start, contentLength));
      var end := MaxInt(0, MinInt(r.end, contentLength));
      if start < end {
        result := result + [Position(start, end)];
      }
    }
    assert ranges[..|ranges|] == ranges;
  }

  /** Clamping keeps exactly the covered offsets that lie inside the content. */
  lemma {:induction false} ClampedCoverage(rs: seq<Position>, len: int, i: int)
    ensures Covered(ClampedRanges(rs, len), i) <==> 0 <= i < len && Covered(rs, i)
  {
    if |rs| > 0 {
      var init := rs[..|rs| - 1];
      var last := rs[|rs| - 1];
      var c := Position(ClampOffset(last.start, len), ClampOffset(last.end, len));
      ClampedCoverage(init, len, i);
      assert rs == init + [last];
      CoveredAppend(init, last, i);
      if c.start < c.end {
        CoveredAppend(ClampedRanges(init, len), c, i);
      } else {
        assert ClampedRanges(rs, len) == ClampedRanges(init, len);
      }
    }
  }

  // ---------------------------------------------------------------------------
  // mergeRanges
  // ---------------------------------------------------------------------------

  /** Inserts `r` after every range whose start is not greater than its own
      (a stable insertion). */
  function InsertByStart(r: Position, s: seq<Position>): (out: seq<Position>)
    ensures multiset(out) == multiset(s) + multiset{r}
    ensures |out| == |s| + 1
  {
    if |s| == 0 then [r]
    else if s[|s| - 1].start <= r.start then s + [r]
    else
      assert s == s[..|s| - 1] + [s[|s| - 1]];
      InsertByStart(r, s[..|s| - 1]) + [s[|s| - 1]]
  }

  /** Inserting into a sorted list keeps it sorted. */
  lemma {:induction false} InsertByStartSorted(r: Position, s: seq<Position>)
    requires SortedByStart(s)
    ensures SortedByStart(InsertByStart(r, s))
  {
    if |s| > 0 && s[|s| - 1].start > r.start {
      var init := s[..|s| - 1];
      var last := s[|s| - 1];
      InsertByStartSorted(r, init);
      var rest := InsertByStart(r, init);
      forall k | 0 <= k < |rest| ensures rest[k].start <= last.start {
        assert rest[k] in multiset(rest);
        if rest[k] != r {
          assert rest[k] in multiset(init);
          var m :| 0 <= m < |init| && init[m] == rest[k];
          assert s[m] == init[m];
        }
      }
      var out := rest + [last];
      forall j, k | 0 <= j < k < |out| ensures out[j].start <= out[k].start {
        if k < |rest| {
          assert out[j] == rest[j] && out[k] == rest[k];
        }
      }
    }
  }

  /** `[...ranges].sort((a, b) => a.start - b.start)`: a stable sort by start. */
  function SortByStart(s: seq<Position>): (out: seq<Position>)
    ensures multiset(out) == multiset(s)
    ensures |out| == |s|
    ensures SortedByStart(out)
  {
    if |s| == 0 then []
    else
      assert s == s[..|s| - 1] + [s[|s| - 1]];
      InsertByStartSorted(s[|s| - 1], SortByStart(s[..|s| - 1]));
      InsertByStart(s[|s| - 1], SortByStart(s[..|s| - 1]))
  }

  /** Sorting does not change which offsets are covered. */
  lemma SortedCoverage(s: seq<Position>, i: int)
    ensures Covered(SortByStart(s), i) <==> Covered(s, i)
  {
    var t := SortByStart(s);
    if Covered(t, i) {
      var k :| 0 <= k < |t| && InRange(t[k], i);
      assert t[k] in multiset(s);
      CoveredByMember(s, t[k], i);
    }
    if Covered(s, i) {
      var k :| 0 <= k < |s| && InRange(s[k], i);
      assert s[k] in multiset(t);
      CoveredByMember(t, s[k], i);
    }
  }

  /** Sorting keeps every range, so it keeps them non-empty and inside the content. */
  lemma SortedKeepsShape(s: seq<Position>, len: int)
    ensures NonEmptyRanges(s) ==> NonEmptyRanges(SortByStart(s))
    ensures WithinContent(s, len) ==> WithinContent(SortByStart(s), len)
  {
    var t := SortByStart(s);
    forall k | 0 <= k < |t| ensures t[k] in s {
      assert t[k] in multiset(s);
    }
  }

  /** One step of the merge loop: extend the last merged range when `r` starts
      at or before its end, otherwise append `r`. */
  function MergeStep(merged: seq<Position>, r: Position): (out: seq<Position>)
    requires |merged| > 0
    ensures |out| > 0
  {
    var last := merged[|merged| - 1];
    if r.start <= last.end then merged[|merged| - 1 := Position(last.start, MaxInt(last.end, r.end))]
    else merged + [r]
  }

  /** The merge loop run over a whole sorted list. */
  function MergedRanges(sorted: seq<Position>): (out: seq<Position>)
    ensures |sorted| > 0 <==> |out| > 0
    ensures |out| <= |sorted|
    ensures Separated(out)
  {
    if |sorted| == 0 then []
    else if |sorted| == 1 then [sorted[0]]
    else MergeStep(MergedRanges(sorted[..|sorted| - 1]), sorted[|sorted| - 1])
  }

  lemma MergedRangesStep(sorted: seq<Position>, i: int)
    requires 1 <= i < |sorted|
    ensures MergedRanges(sorted[..i + 1]) == MergeStep(MergedRanges(sorted[..i]), sorted[i])
  {
    assert sorted[..i + 1][..i] == sorted[..i];
  }

  /** `mergeRanges`. */
  method MergeRanges(ranges: seq<Position>) returns (merged: seq<Position>)
    ensures merged == MergedRanges(SortByStart(ranges))
  {
    if |ranges| == 0 {
      return [];
    }
    var sorted := SortByStart(ranges);
    merged := [Position(sorted[0].start, sorted[0].end)];
    for i := 1 to |sorted|
      invariant |merged| > 0
      invariant merged == MergedRanges(sorted[..i])
    {
      MergedRangesStep(sorted, i);
      var r := sorted[i];
      var last := merged[|merged| - 1];
      if r.start <= last.end {
        merged := merged[|merged| - 1 := Position(last.start, MaxInt(last.end, r.end))];
      } else {
        merged := merged + [Position(r.start, r.end)];
      }
    }
    assert sorted[..|sorted|] == sorted;
  }

  /** On sorted input the merged ranges are non-empty when the input ranges are,
      stay inside the content, and the last one starts no later than the last
      input range. */
  lemma {:induction false} MergedShape(sorted: seq<Position>, len: int)
    requires SortedByStart(sorted)
    ensures NonEmptyRanges(sorted) ==> NonEmptyRanges(MergedRanges(sorted))
    ensures WithinContent(sorted, len) ==> WithinContent(MergedRanges(sorted), len)
    ensures |sorted| > 0 ==> MergedRanges(sorted)[|MergedRanges(sorted)| - 1].start <= sorted[|sorted| - 1].start
  {
    if |sorted| > 1 {
      MergedShape(sorted[..|sorted| - 1], len);
    }
  }

  /** One merge step covers what was merged so far plus the new range, given
      that the new range does not start before the last merged one. */
  lemma MergeStepCoverage(m: seq<Position>, r: Position, i: int)
    requires |m| > 0 && m[|m| - 1].start <= r.start
    ensures Covered(MergeStep(m, r), i) <==> Covered(m, i) || InRange(r, i)
  {
    var init := m[..|m| - 1];
    var last := m[|m| - 1];
    assert m == init + [last];
    CoveredAppend(init, last, i);
    if r.start <= last.end {
      var fused := Position(last.start, MaxInt(last.end, r.end));
      assert MergeStep(m, r) == init + [fused];
      CoveredAppend(init, fused, i);
    } else {
      CoveredAppend(m, r, i);
    }
  }

  /** Merging sorted ranges covers exactly the offsets the input covers. */
  lemma {:induction false} MergedCoverage(sorted: seq<Position>, i: int)
    requires SortedByStart(sorted)
    ensures Covered(MergedRanges(sorted), i) <==> Covered(sorted, i)
  {
    if |sorted| == 1 {
      assert sorted == [sorted[0]];
    } else if |sorted| > 1 {
      var init := sorted[..|sorted| - 1];
      var r := sorted[|sorted| - 1];
      MergedCoverage(init, i);
      MergedShape(init, 0);
      assert sorted == init + [r];
      CoveredAppend(init, r, i);
      MergeStepCoverage(MergedRanges(init), r, i);
    }
  }

  // ---------------------------------------------------------------------------
  // mergeAdjacentByPunctuation
  // ---------------------------------------------------------------------------

  /** The widest gap, in characters, that may be fused away. */
  const MAX_PUNCTUATION_GAP: int := 10

  /** A character of the class `[\s.,;:!?'"-]`. */
  predicate IsPunctuationOrWhitespace(c: char) {
    || IsJsWhitespace(c)
    || c == '.' || c == ',' || c == ';' || c == ':' || c == '!' || c == '?' || c == '\'' || c == '"' || c == '-'
  }

  /** `isOnlyPunctuationOrWhitespace`: the text matches `^[\s.,;:!?'"-]*$`,
      checked one character at a time from the front. */
  predicate IsOnlyPunctuationOrWhitespace(s: string) {
    |s| == 0 || (IsPunctuationOrWhitespace(s[0]) && IsOnlyPunctuationOrWhitespace(s[1..]))
  }

  /** A text passes the check exactly when every character is in the class. */
  lemma {:induction false} OnlyPunctuationIff(s: string)
    ensures IsOnlyPunctuationOrWhitespace(s) <==> forall k :: 0 <= k < |s| ==> IsPunctuationOrWhitespace(s[k])
  {
    if |s| > 0 {
      OnlyPunctuationIff(s[1..]);
      assert forall k :: 1 <= k < |s| ==> s[1..][k - 1] == s[k];
    }
  }

  /** The gap [gapStart, gapEnd) is 1 to 10 characters of punctuation or
      whitespace only, so the ranges on both sides are fused. */
  predicate Fusable(content: string, gapStart: int, gapEnd: int) {
    gapEnd > gapStart && gapEnd - gapStart <= MAX_PUNCTUATION_GAP
    && IsOnlyPunctuationOrWhitespace(Slice(content, gapStart, gapEnd))
  }

  /** One step of the fusing loop: stretch the last range to `r.end` when the gap
      between them is fusable, otherwise append `r`. */
  function FuseStep(acc: seq<Position>, r: Position, content: string): (out: seq<Position>)
    requires |acc| > 0
    ensures |out| > 0 && out[|out| - 1].end == r.end
    ensures out[0].start == acc[0].start
  {
    var last := acc[|acc| - 1];
    if Fusable(content, last.end, r.start) then acc[|acc| - 1 := Position(last.start, r.end)]
    else acc + [r]
  }

  /** The fusing loop run over a whole list. */
  function FusedRanges(rs: seq<Position>, content: string): (out: seq<Position>)
    ensures |out| <= |rs|
    ensures |rs| > 0 ==> |out| > 0 && out[|out| - 1].end == rs[|rs| - 1].end && out[0].start == rs[0].start
  {
    if |rs| == 0 then [] else FusedUpTo(rs, |rs|, content)
  }

  /** The first `n` ranges fused: what the fusing loop holds after `n` turns. */
  function FusedUpTo(rs: seq<Position>, n: int, content: string): (out: seq<Position>)
    requires 1 <= n <= |rs|
    ensures 0 < |out| <= n
    ensures out[|out| - 1].end == rs[n - 1].end && out[0].start == rs[0].start
  {
    if n == 1 then [rs[0]] else FuseStep(FusedUpTo(rs, n - 1, content), rs[n - 1], content)
  }

  /** A list of at most one range has nothing to fuse. */
  lemma FusedShort(rs: seq<Position>, content: string)
    requires |rs| <= 1
    ensures FusedRanges(rs, content) == rs
  {
    if |rs| == 1 {
      assert FusedUpTo(rs, 1, content) == [rs[0]] == rs;
    }
  }

  /** One turn of the fusing loop, and its state before the first turn. */
  lemma FusedUpToNext(rs: seq<Position>, i: int, content: string)
    requires 0 <= i < |rs|
    ensures i == 0 ==> FusedUpTo(rs, 1, content) == [rs[0]]
    ensures i > 0 ==> FusedUpTo(rs, i + 1, content) == FuseStep(FusedUpTo(rs, i, content), rs[i], content)
  {
  }

  /** The fusing loop ends with the whole list fused. */
  lemma FusedWhole(rs: seq<Position>, content: string)
    requires |rs| > 0
    ensures FusedRanges(rs, content) == FusedUpTo(rs, |rs|, content)
  {
  }

  /** `mergeAdjacentByPunctuation`. */
  method MergeAdjacentByPunctuation(ranges: seq<Position>, content: string) returns (result: seq<Position>)
    ensures result == FusedRanges(ranges, content)
  {
    if |ranges| <= 1 {
      FusedShort(ranges, content);
      return ranges;
    }
    result := [ranges[0]];
    FusedUpToNext(ranges, 0, content);
    for i := 1 to |ranges|
      invariant result == FusedUpTo(ranges, i, content)
    {
      result := FuseNext(result, ranges[i], content);
      FusedUpToNext(ranges, i, content);
    }
    FusedWhole(ranges, content);
  }

  /** The body of the fusing loop: measure the gap between the last range and
      `r`, and stretch the last range over it or append `r`. */
  method FuseNext(result: seq<Position>, r: Position, content: string) returns (next: seq<Position>)
    requires |result| > 0
    ensures next == FuseStep(result, r, content)
  {
    var last := result[|result| - 1];
    var gapStart := last.end;
    var gapEnd := r.start;
    if gapEnd > gapStart && gapEnd - gapStart <= MAX_PUNCTUATION_GAP {
      var gap := Slice(content, gapStart, gapEnd);
      if IsOnlyPunctuationOrWhitespace(gap) {
        return result[|result| - 1 := Position(last.start, r.end)];
      }
    }
    next := result + [r];
  }

  /** Offset `i` lies in the gap after `rs[j]` and that gap is fused. */
  predicate InFusedGapAt(rs: seq<Position>, content: string, j: int, i: int)
    requires 0 <= j < |rs| - 1
  {
    Fusable(content, rs[j].end, rs[j + 1].start) && rs[j].end <= i < rs[j + 1].start
  }

  /** Offset `i` lies in some fused gap between consecutive ranges. */
  predicate InFusedGap(rs: seq<Position>, content: string, i: int) {
    InFusedGapBelow(rs, |rs|, content, i)
  }

  /** Offset `i` lies in a fused gap among the first `n` ranges. */
  predicate InFusedGapBelow(rs: seq<Position>, n: int, content: string, i: int)
    requires n <= |rs|
  {
    exists j :: 0 <= j < n - 1 && InFusedGapAt(rs, content, j, i)
  }

  /** Offset `i` lies inside one of the first `n` ranges. */
  predicate CoveredBelow(rs: seq<Position>, n: int, i: int)
    requires n <= |rs|
  {
    exists k :: 0 <= k < n && InRange(rs[k], i)
  }

  lemma CoveredBelowStep(rs: seq<Position>, n: int, i: int)
    requires 1 <= n <= |rs|
    ensures CoveredBelow(rs, n, i) <==> CoveredBelow(rs, n - 1, i) || InRange(rs[n - 1], i)
  {
    if CoveredBelow(rs, n, i) && !InRange(rs[n - 1], i) {
      var k :| 0 <= k < n && InRange(rs[k], i);
      assert k < n - 1;
    }
  }

  lemma InFusedGapBelowStep(rs: seq<Position>, n: int, content: string, i: int)
    requires 2 <= n <= |rs|
    ensures InFusedGapBelow(rs, n, content, i) <==>
      InFusedGapBelow(rs, n - 1, content, i) || InFusedGapAt(rs, content, n - 2, i)
  {
    if InFusedGapBelow(rs, n, content, i) && !InFusedGapAt(rs, content, n - 2, i) {
      var j :| 0 <= j < n - 1 && InFusedGapAt(rs, content, j, i);
      assert j < n - 2;
    }
  }

  /** One fusing step keeps separated non-empty ranges separated and non-empty
      and leaves no fusable gap, given that `r` starts after the last range. */
  lemma FuseStepShape(acc: seq<Position>, r: Position, content: string, len: int)
    requires |acc| > 0 && Separated(acc) && NonEmptyRanges(acc)
    requires forall k :: 0 <= k < |acc| - 1 ==> !Fusable(content, acc[k].end, acc[k + 1].start)
    requires acc[|acc| - 1].end < r.start < r.end
    ensures var out := FuseStep(acc, r, content);
      && Separated(out) && NonEmptyRanges(out)
      && (forall k :: 0 <= k < |out| - 1 ==> !Fusable(content, out[k].end, out[k + 1].start))
      && (WithinContent(acc, len) && 0 <= r.start && r.end <= len ==> WithinContent(out, len))
  {
    var last := acc[|acc| - 1];
    if Fusable(content, last.end, r.start) {
      StretchLastShape(acc, r.end, content, len);
    } else {
      AppendShape(acc, r, content, len);
    }
  }

  /** Stretching the last range to `end` keeps the shape. */
  lemma StretchLastShape(acc: seq<Position>, end: int, content: string, len: int)
    requires |acc| > 0 && Separated(acc) && NonEmptyRanges(acc)
    requires forall k :: 0 <= k < |acc| - 1 ==> !Fusable(content, acc[k].end, acc[k + 1].start)
    requires acc[|acc| - 1].end < end
    ensures var out := acc[|acc| - 1 := Position(acc[|acc| - 1].start, end)];
      && Separated(out) && NonEmptyRanges(out)
      && (forall k :: 0 <= k < |out| - 1 ==> !Fusable(content, out[k].end, out[k + 1].start))
      && (WithinContent(acc, len) && end <= len ==> WithinContent(out, len))
  {
    var out := acc[|acc| - 1 := Position(acc[|acc| - 1].start, end)];
    assert forall k :: 0 <= k < |acc| - 1 ==> out[k] == acc[k];
    assert out[|acc| - 1].start == acc[|acc| - 1].start;
  }

  /** Appending a range past a non-fusable gap keeps the shape. */
  lemma AppendShape(acc: seq<Position>, r: Position, content: string, len: int)
    requires |acc| > 0 && Separated(acc) && NonEmptyRanges(acc)
    requires forall k :: 0 <= k < |acc| - 1 ==> !Fusable(content, acc[k].end, acc[k + 1].start)
    requires acc[|acc| - 1].end < r.start < r.end
    requires !Fusable(content, acc[|acc| - 1].end, r.start)
    ensures var out := acc + [r];
      && Separated(out) && NonEmptyRanges(out)
      && (forall k :: 0 <= k < |out| - 1 ==> !Fusable(content, out[k].end, out[k + 1].start))
      && (WithinContent(acc, len) && 0 <= r.start && r.end <= len ==> WithinContent(out, len))
  {
    var out := acc + [r];
    assert forall k :: 0 <= k < |acc| ==> out[k] == acc[k];
    assert out[|acc|] == r;
  }

  /** On separated, non-empty input, fusing keeps the ranges separated and
      non-empty, inside the content, and leaves no fusable gap behind. */
  lemma FusedShape(rs: seq<Position>, content: string, len: int)
    requires Separated(rs) && NonEmptyRanges(rs)
    ensures var out := FusedRanges(rs, content);
      && Separated(out) && NonEmptyRanges(out)
      && (forall k :: 0 <= k < |out| - 1 ==> !Fusable(content, out[k].end, out[k + 1].start))
      && (WithinContent(rs, len) ==> WithinContent(out, len))
  {
    if |rs| > 0 {
      FusedUpToShape(rs, |rs|, content, len);
    }
  }

  /** `FusedShape` for the first `n` ranges. */
  lemma {:induction false} FusedUpToShape(rs: seq<Position>, n: int, content: string, len: int)
    requires Separated(rs) && NonEmptyRanges(rs) && 1 <= n <= |rs|
    ensures var out := FusedUpTo(rs, n, content);
      && Separated(out) && NonEmptyRanges(out)
      && (forall k :: 0 <= k < |out| - 1 ==> !Fusable(content, out[k].end, out[k + 1].start))
      && (WithinContent(rs, len) ==> WithinContent(out, len))
  {
    if n > 1 {
      FusedUpToShape(rs, n - 1, content, len);
      assert rs[n - 2].end < rs[n - 1].start < rs[n - 1].end;
      FuseStepShape(FusedUpTo(rs, n - 1, content), rs[n - 1], content, len);
    }
  }

  /** One fusing step covers what was covered so far, the new range, and the
      gap between them when that gap is fusable. */
  lemma FuseStepCoverage(acc: seq<Position>, r: Position, content: string, i: int)
    requires |acc| > 0 && acc[|acc| - 1].start < acc[|acc| - 1].end < r.start < r.end
    ensures var last := acc[|acc| - 1];
      Covered(FuseStep(acc, r, content), i) <==>
        Covered(acc, i) || InRange(r, i)
        || (Fusable(content, last.end, r.start) && last.end <= i < r.start)
  {
    var init := acc[..|acc| - 1];
    var last := acc[|acc| - 1];
    assert acc == init + [last];
    CoveredAppend(init, last, i);
    if Fusable(content, last.end, r.start) {
      var fused := Position(last.start, r.end);
      assert FuseStep(acc, r, content) == init + [fused];
      CoveredAppend(init, fused, i);
      assert InRange(fused, i) <==> InRange(last, i) || InRange(r, i) || last.end <= i < r.start;
    } else {
      CoveredAppend(acc, r, i);
    }
  }

  /** After `n` turns of the fusing loop, offset `i` is covered exactly when one
      of the first `n` ranges or a fused gap among them holds it. */
  predicate FusedCoverageAt(rs: seq<Position>, n: int, content: string, i: int)
    requires 1 <= n <= |rs|
  {
    Covered(FusedUpTo(rs, n, content), i) <==>
      CoveredBelow(rs, n, i) || InFusedGapBelow(rs, n, content, i)
  }

  /** The inductive step of `FusedUpToCoverage`. */
  lemma FusedUpToCoverageStep(rs: seq<Position>, n: int, content: string, i: int)
    requires Separated(rs) && NonEmptyRanges(rs) && 2 <= n <= |rs|
    requires FusedCoverageAt(rs, n - 1, content, i)
    ensures FusedCoverageAt(rs, n, content, i)
  {
    var acc := FusedUpTo(rs, n - 1, content);
    FusedUpToShape(rs, n - 1, content, 0);
    assert acc[|acc| - 1].end == rs[n - 2].end < rs[n - 1].start;
    FuseStepCoverage(acc, rs[n - 1], content, i);
    CoveredBelowStep(rs, n, i);
    InFusedGapBelowStep(rs, n, content, i);
    CombineCoverage(Covered(FusedUpTo(rs, n, content), i), Covered(acc, i),
                    CoveredBelow(rs, n, i), CoveredBelow(rs, n - 1, i),
                    InFusedGapBelow(rs, n, content, i), InFusedGapBelow(rs, n - 1, content, i),
                    InRange(rs[n - 1], i), InFusedGapAt(rs, content, n - 2, i));
  }

  /** The propositional step that closes `FusedUpToCoverageStep`. */
  lemma CombineCoverage(fused: bool, fusedInit: bool, covered: bool, coveredInit: bool,
                        inGap: bool, inGapInit: bool, inLast: bool, inLastGap: bool)
    requires fused <==> fusedInit || inLast || inLastGap
    requires fusedInit <==> coveredInit || inGapInit
    requires inGap <==> inGapInit || inLastGap
    requires covered <==> coveredInit || inLast
    ensures fused <==> covered || inGap
  {
  }

  /** Fusing covers the input's offsets plus exactly the fused gaps. */
  lemma FusedCoverage(rs: seq<Position>, content: string, i: int)
    requires Separated(rs) && NonEmptyRanges(rs)
    ensures Covered(FusedRanges(rs, content), i) <==> Covered(rs, i) || InFusedGap(rs, content, i)
  {
    if |rs| > 0 {
      FusedUpToCoverage(rs, |rs|, content, i);
    }
  }

  /** The fusing loop before its first turn covers the first range only. */
  lemma FusedFirstCoverage(rs: seq<Position>, content: string, i: int)
    requires 1 <= |rs|
    ensures FusedCoverageAt(rs, 1, content, i)
  {
    var first := FusedUpTo(rs, 1, content);
    assert first == [rs[0]];
    if Covered(first, i) {
      var k :| 0 <= k < 1 && InRange(first[k], i);
      assert CoveredBelow(rs, 1, i);
    }
    if CoveredBelow(rs, 1, i) {
      assert InRange(first[0], i);
    }
  }

  /** `FusedCoverage` for the first `n` ranges. */
  lemma {:induction false} FusedUpToCoverage(rs: seq<Position>, n: int, content: string, i: int)
    requires Separated(rs) && NonEmptyRanges(rs) && 1 <= n <= |rs|
    ensures FusedCoverageAt(rs, n, content, i)
  {
    if n == 1 {
      FusedFirstCoverage(rs, content, i);
    } else {
      FusedUpToCoverage(rs, n - 1, content, i);
      FusedUpToCoverageStep(rs, n, content, i);
    }
  }

  // ---------------------------------------------------------------------------
  // removeRanges
  // ---------------------------------------------------------------------------

  /** The characters among the first `n` whose offsets no range covers, in order. */
  function KeptPrefix(content: string, rs: seq<Position>, n: int): (r: string)
    requires 0 <= n <= |content|
    ensures |r| <= n
  {
    if n == 0 then ""
    else KeptPrefix(content, rs, n - 1) + (if Covered(rs, n - 1) then "" else [content[n - 1]])
  }

  /** The content with every covered character removed. */
  function Kept(content: string, rs: seq<Position>): (r: string)
    ensures |r| <= |content|
  {
    KeptPrefix(content, rs, |content|)
  }

  /** Appending an uncovered stretch appends its characters. */
  lemma {:induction false} KeptUncovered(content: string, rs: seq<Position>, a: int, b: int)
    requires 0 <= a <= b <= |content|
    requires forall i :: a <= i < b ==> !Covered(rs, i)
    ensures KeptPrefix(content, rs, b) == KeptPrefix(content, rs, a) + content[a..b]
    decreases b - a
  {
    if a < b {
      KeptUncovered(content, rs, a, b - 1);
      assert content[a..b] == content[a..b - 1] + [content[b - 1]];
    }
  }

  /** Appending a covered stretch appends nothing. */
  lemma {:induction false} KeptCovered(content: string, rs: seq<Position>, a: int, b: int)
    requires 0 <= a <= b <= |content|
    requires forall i :: a <= i < b ==> Covered(rs, i)
    ensures KeptPrefix(content, rs, b) == KeptPrefix(content, rs, a)
    decreases b - a
  {
    if a < b {
      KeptCovered(content, rs, a, b - 1);
    }
  }

  /** `removeRanges`: the ranges must be well formed and sorted by start (they
      may overlap or touch). */
  method RemoveRanges(content: string, ranges: seq<Position>) returns (result: string)
    requires forall k :: 0 <= k < |ranges| ==> WellFormed(ranges[k])
    requires SortedByStart(ranges)
    ensures result == Kept(content, ranges)
  {
    if |ranges| == 0 {
      KeptCovered(content, ranges, |content|, |content|);
      KeptUncovered(content, ranges, 0, |content|);
      assert content[0..|content|] == content;
      return content;
    }
    result := "";
    var pos := 0;
    for k := 0 to |ranges|
      invariant 0 <= pos
      invariant forall j :: 0 <= j < k ==> ranges[j].end <= pos
      invariant result == KeptPrefix(content, ranges, MinInt(pos, |content|))
    {
      result, pos := RemoveNext(content, ranges, k, result, pos);
    }
    if pos < |content| {
      UncoveredTail(ranges, pos, |content|);
      KeptUncovered(content, ranges, pos, |content|);
      result := result + Slice(content, pos, |content|);
    }
  }

  /** One turn of the removal loop: keep the text between `pos` and range `k`,
      then skip to the end of range `k`. */
  method RemoveNext(content: string, ranges: seq<Position>, k: int, result: string, pos: int)
    returns (result': string, pos': int)
    requires forall j :: 0 <= j < |ranges| ==> WellFormed(ranges[j])
    requires SortedByStart(ranges)
    requires 0 <= k < |ranges| && 0 <= pos
    requires forall j :: 0 <= j < k ==> ranges[j].end <= pos
    requires result == KeptPrefix(content, ranges, MinInt(pos, |content|))
    ensures pos' == MaxInt(pos, ranges[k].end)
    ensures forall j :: 0 <= j <= k ==> ranges[j].end <= pos'
    ensures result' == KeptPrefix(content, ranges, MinInt(pos', |content|))
  {
    var r := ranges[k];
    var lo := MinInt(pos, |content|);
    var top := MinInt(MaxInt(pos, r.end), |content|);
    if r.start > pos {
      var hi := MinInt(r.start, |content|);
      UncoveredGap(ranges, k, pos, |content|);
      KeptUncovered(content, ranges, lo, hi);
      result' := result + Slice(content, pos, r.start);
      CoveredStretch(ranges, k, hi, top);
      KeptCovered(content, ranges, hi, top);
    } else {
      CoveredStretch(ranges, k, lo, top);
      KeptCovered(content, ranges, lo, top);
      result' := result;
    }
    pos' := MaxInt(pos, r.end);
  }

  /** The offsets between `pos` and the start of range `k` are not covered:
      earlier ranges end by `pos` and later ones start after range `k`. */
  lemma UncoveredGap(ranges: seq<Position>, k: int, pos: int, n: int)
    requires SortedByStart(ranges)
    requires 0 <= k < |ranges|
    requires forall j :: 0 <= j < k ==> ranges[j].end <= pos
    ensures forall i :: MinInt(pos, n) <= i < MinInt(ranges[k].start, n) ==> !Covered(ranges, i)
  {
    forall i | MinInt(pos, n) <= i < MinInt(ranges[k].start, n) ensures !Covered(ranges, i) {
      forall j | 0 <= j < |ranges| ensures !InRange(ranges[j], i) {
        if j >= k {
          assert ranges[k].start <= ranges[j].start;
        }
      }
    }
  }

  /** Offsets inside range `k` are covered. */
  lemma CoveredStretch(ranges: seq<Position>, k: int, a: int, b: int)
    requires 0 <= k < |ranges| && (a < b ==> ranges[k].start <= a && b <= ranges[k].end)
    ensures forall i :: a <= i < b ==> Covered(ranges, i)
  {
    forall i | a <= i < b ensures Covered(ranges, i) {
      assert InRange(ranges[k], i);
    }
  }

  /** Past the end of every range nothing is covered. */
  lemma UncoveredTail(ranges: seq<Position>, pos: int, b: int)
    requires forall j :: 0 <= j < |ranges| ==> ranges[j].end <= pos
    ensures forall i :: pos <= i < b ==> !Covered(ranges, i)
  {
    forall i | pos <= i < b ensures !Covered(ranges, i) {
      forall j | 0 <= j < |ranges| ensures !InRange(ranges[j], i) {
      }
    }
  }

  /** With no ranges nothing is removed. */
  lemma KeptNothing(content: string)
    ensures Kept(content, []) == content
  {
    KeptUncovered(content, [], 0, |content|);
    assert content[0..|content|] == content;
  }

  /** How many of the first `n` offsets are covered. */
  function CoveredCount(rs: seq<Position>, n: nat): nat {
    if n == 0 then 0 else CoveredCount(rs, n - 1) + (if Covered(rs, n - 1) then 1 else 0)
  }

  /** Removal shortens the content by exactly the number of covered offsets. */
  lemma {:induction false} KeptLength(content: string, rs: seq<Position>, n: nat)
    requires n <= |content|
    ensures |KeptPrefix(content, rs, n)| == n - CoveredCount(rs, n)
  {
    if n > 0 {
      KeptLength(content, rs, n - 1);
    }
  }

  /** Some offset below `n` is covered, so the count is positive. */
  lemma {:induction false} CoveredCountPositive(rs: seq<Position>, n: nat, i: int)
    requires 0 <= i < n && Covered(rs, i)
    ensures CoveredCount(rs, n) > 0
  {
    if i < n - 1 {
      CoveredCountPositive(rs, n - 1, i);
    }
  }

  /** Non-empty separated ranges are sorted by start. */
  lemma SeparatedIsSorted(rs: seq<Position>)
    requires Separated(rs) && NonEmptyRanges(rs)
    ensures SortedByStart(rs)
  {
    forall j, k | 0 <= j < k < |rs| ensures rs[j].start <= rs[k].start {
      SeparatedIsIncreasing(rs, j, k);
    }
  }

  // ---------------------------------------------------------------------------
  // The pipeline for one segment
  // ---------------------------------------------------------------------------

  /** The planned ranges clamped, sorted and merged. */
  function MergedPlan(content: string, ranges: seq<Position>): seq<Position> {
    MergedRanges(SortByStart(ClampedRanges(ranges, |content|)))
  }

  /** The ranges finally excised: the merged plan fused across short
      punctuation-only gaps. */
  function FinalRanges(content: string, ranges: seq<Position>): seq<Position> {
    FusedRanges(MergedPlan(content, ranges), content)
  }

  /** The content with the final ranges excised. */
  function RedactedContent(content: string, ranges: seq<Position>): string {
    Kept(content, FinalRanges(content, ranges))
  }

  /** The final ranges are sorted, separated, non-empty, inside the content and
      leave no fusable gap; there are none exactly when clamping leaves none. */
  lemma FinalRangesShape(content: string, ranges: seq<Position>)
    ensures var f := FinalRanges(content, ranges);
      && Separated(f) && NonEmptyRanges(f) && SortedByStart(f)
      && WithinContent(f, |content|)
      && (forall k :: 0 <= k < |f| - 1 ==> !Fusable(content, f[k].end, f[k + 1].start))
      && (f == [] <==> ClampedRanges(ranges, |content|) == [])
  {
    var clamped := ClampedRanges(ranges, |content|);
    var sorted := SortByStart(clamped);
    SortedKeepsShape(clamped, |content|);
    MergedShape(sorted, |content|);
    var merged := MergedRanges(sorted);
    FusedShape(merged, content, |content|);
    SeparatedIsSorted(FinalRanges(content, ranges));
  }

  /** An offset in a fused gap of ranges inside the content holds a
      punctuation or whitespace character. */
  lemma FusedGapIsPunctuation(rs: seq<Position>, content: string, i: int)
    requires NonEmptyRanges(rs) && WithinContent(rs, |content|)
    requires InFusedGap(rs, content, i)
    ensures 0 <= i < |content| && IsPunctuationOrWhitespace(content[i])
  {
    var j :| 0 <= j < |rs| - 1 && InFusedGapAt(rs, content, j, i);
    var a := rs[j].end;
    var b := rs[j + 1].start;
    assert 0 <= rs[j].start < a <= i < b < rs[j + 1].end <= |content|;
    GapCharacter(content, a, b, i);
  }

  /** A character inside a punctuation-only gap is punctuation or whitespace. */
  lemma GapCharacter(content: string, a: int, b: int, i: int)
    requires 0 <= a <= i < b <= |content|
    requires IsOnlyPunctuationOrWhitespace(Slice(content, a, b))
    ensures IsPunctuationOrWhitespace(content[i])
  {
    var gap := Slice(content, a, b);
    OnlyPunctuationIff(gap);
    assert gap[i - a] == content[i];
  }

  /** Exactly which offsets the pipeline removes: those the plan covers inside
      the content, plus those in fused gaps, which are all punctuation or
      whitespace. */
  lemma FinalCoverage(content: string, ranges: seq<Position>, i: int)
    ensures Covered(FinalRanges(content, ranges), i) <==>
      (0 <= i < |content| && Covered(ranges, i)) || InFusedGap(MergedPlan(content, ranges), content, i)
    ensures Covered(FinalRanges(content, ranges), i) && !Covered(ranges, i) ==>
      0 <= i < |content| && IsPunctuationOrWhitespace(content[i])
  {
    var clamped := ClampedRanges(ranges, |content|);
    var sorted := SortByStart(clamped);
    var merged := MergedRanges(sorted);
    ClampedCoverage(ranges, |content|, i);
    SortedCoverage(clamped, i);
    MergedCoverage(sorted, i);
    SortedKeepsShape(clamped, |content|);
    MergedShape(sorted, |content|);
    FusedCoverage(merged, content, i);
    if InFusedGap(merged, content, i) {
      FusedGapIsPunctuation(merged, content, i);
    }
  }

  /** The redacted content keeps exactly the characters at offsets the final
      ranges leave uncovered, so it is shorter by the covered count, and
      strictly shorter whenever some planned range overlaps the content. */
  lemma RedactedLength(content: string, ranges: seq<Position>)
    ensures |RedactedContent(content, ranges)| == |content| - CoveredCount(FinalRanges(content, ranges), |content|)
    ensures ClampedRanges(ranges, |content|) != [] ==> |RedactedContent(content, ranges)| < |content|
  {
    var f := FinalRanges(content, ranges);
    KeptLength(content, f, |content|);
    var clamped := ClampedRanges(ranges, |content|);
    if clamped != [] {
      var i := clamped[0].start;
      assert InRange(clamped[0], i);
      ClampedCoverage(ranges, |content|, i);
      FinalCoverage(content, ranges, i);
      CoveredCountPositive(f, |content|, i);
    }
  }

  /** One segment with its planned ranges: unchanged when it has none or none
      overlaps its content; otherwise only `sanitizedContent` changes. */
  function RedactSegment(seg: IslSegment, ranges: seq<Position>): (out: IslSegment)
    ensures out == seg.(sanitizedContent := out.sanitizedContent)
    ensures ClampedRanges(ranges, |seg.sanitizedContent|) == [] ==> out == seg
  {
    if |ranges| == 0 then seg
    else if |ClampedRanges(ranges, |seg.sanitizedContent|)| == 0 then seg
    else seg.(sanitizedContent := RedactedContent(seg.sanitizedContent, ranges))
  }

  // ---------------------------------------------------------------------------
  // applyRemovalPlan
  // ---------------------------------------------------------------------------

  /** The positions of the instructions addressed to segment `id`, in plan
      order; instructions without a segment id address no segment. */
  function RangesFor(instructions: seq<RemovedInstruction>, id: string): (rs: seq<Position>)
    ensures |rs| <= |instructions|
    ensures rs == [] <==> forall k :: 0 <= k < |instructions| ==> instructions[k].segmentId != Some(id)
  {
    if |instructions| == 0 then []
    else
      var init := instructions[..|instructions| - 1];
      var last := instructions[|instructions| - 1];
      assert forall k :: 0 <= k < |init| ==> init[k] == instructions[k];
      RangesFor(init, id) + (if last.segmentId == Some(id) then [last.position] else [])
  }

  /** A range is planned for segment `id` exactly when some instruction
      addressed to `id` carries it. */
  lemma {:induction false} RangesForMembers(instructions: seq<RemovedInstruction>, id: string, p: Position)
    ensures p in RangesFor(instructions, id) <==>
      exists k :: 0 <= k < |instructions| && instructions[k].segmentId == Some(id) && instructions[k].position == p
  {
    if |instructions| > 0 {
      var init := instructions[..|instructions| - 1];
      RangesForMembers(init, id, p);
      if exists k :: 0 <= k < |init| && init[k].segmentId == Some(id) && init[k].position == p {
        var k :| 0 <= k < |init| && init[k].segmentId == Some(id) && init[k].position == p;
        assert instructions[k] == init[k];
      }
      if exists k :: 0 <= k < |instructions| && instructions[k].segmentId == Some(id) && instructions[k].position == p {
        var k :| 0 <= k < |instructions| && instructions[k].segmentId == Some(id) && instructions[k].position == p;
        if k < |init| {
          assert instructions[k] == init[k];
        }
      }
    }
  }

  /** The `bySegmentId` map: each addressed segment id to its ranges in plan order. */
  method BuildRangeMap(instructions: seq<RemovedInstruction>) returns (m: map<string, seq<Position>>)
    ensures forall id :: id in m <==> RangesFor(instructions, id) != []
    ensures forall id :: id in m ==> m[id] == RangesFor(instructions, id)
  {
    m := map[];
    for i := 0 to |instructions|
      invariant forall id :: id in m <==> RangesFor(instructions[..i], id) != []
      invariant forall id :: id in m ==> m[id] == RangesFor(instructions[..i], id)
    {
      assert instructions[..i + 1][..i] == instructions[..i];
      var inst := instructions[i];
      if inst.segmentId.Some? {
        var id := inst.segmentId.value;
        var list := if id in m then m[id] else [];
        m := m[id := list + [inst.position]];
      }
    }
    assert instructions[..|instructions|] == instructions;
  }

  /** Every segment redacted with the ranges addressed to its id. */
  function RedactedSegments(segs: seq<IslSegment>, instructions: seq<RemovedInstruction>): (out: seq<IslSegment>)
    ensures |out| == |segs|
  {
    seq(|segs|, j requires 0 <= j < |segs| => RedactSegment(segs[j], RangesFor(instructions, segs[j].id)))
  }

  lemma RedactedSegmentsStep(segs: seq<IslSegment>, instructions: seq<RemovedInstruction>, i: int)
    requires 0 <= i < |segs|
    ensures RedactedSegments(segs[..i + 1], instructions)
      == RedactedSegments(segs[..i], instructions) + [RedactSegment(segs[i], RangesFor(instructions, segs[i].id))]
  {
    var prefix := segs[..i];
    var extended := segs[..i + 1];
    assert extended == prefix + [segs[i]];
    var a := RedactedSegments(extended, instructions);
    var b := RedactedSegments(prefix, instructions) + [RedactSegment(segs[i], RangesFor(instructions, segs[i].id))];
    forall k | 0 <= k < |a| ensures a[k] == b[k] {
      if k < i {
        assert extended[k] == prefix[k];
      }
    }
  }

  /** What `applyRemovalPlan` returns. */
  function AppliedPlan(isl: IslResult, plan: RemovalPlan): IslResult {
    if !plan.shouldRemove then isl
    else IslResult(RedactedSegments(isl.segments, plan.instructionsToRemove), isl.lineage, isl.metadata)
  }

  /** The result is the input itself when removal is off, the plan is empty, or
      no instruction names a segment. */
  lemma AppliedPlanNoOp(isl: IslResult, plan: RemovalPlan)
    requires !plan.shouldRemove || forall k :: 0 <= k < |plan.instructionsToRemove| ==> plan.instructionsToRemove[k].segmentId.None?
    ensures AppliedPlan(isl, plan) == isl
  {
    if plan.shouldRemove {
      assert RedactedSegments(isl.segments, plan.instructionsToRemove) == isl.segments;
    }
  }

  /** Segment count, order, ids and every field except `sanitizedContent` are
      kept, as are the lineage and metadata; a segment no instruction addresses,
      or whose ranges all fall outside its content, is unchanged; an addressed
      segment's content is the redacted content. */
  lemma AppliedPlanPreserves(isl: IslResult, plan: RemovalPlan)
    ensures var out := AppliedPlan(isl, plan);
      && |out.segments| == |isl.segments|
      && out.lineage == isl.lineage && out.metadata == isl.metadata
      && (forall j :: 0 <= j < |isl.segments| ==>
            out.segments[j] == isl.segments[j].(sanitizedContent := out.segments[j].sanitizedContent))
      && (forall j :: 0 <= j < |isl.segments|
            && ClampedRanges(RangesFor(plan.instructionsToRemove, isl.segments[j].id), |isl.segments[j].sanitizedContent|) == []
            ==> out.segments[j] == isl.segments[j])
      && (forall j :: 0 <= j < |isl.segments| && plan.shouldRemove
            && ClampedRanges(RangesFor(plan.instructionsToRemove, isl.segments[j].id), |isl.segments[j].sanitizedContent|) != []
            ==> out.segments[j].sanitizedContent
                == RedactedContent(isl.segments[j].sanitizedContent, RangesFor(plan.instructionsToRemove, isl.segments[j].id)))
  {
  }

  /** An empty range map means no instruction names a segment. */
  lemma EmptyMapNoSegmentIds(instructions: seq<RemovedInstruction>, m: map<string, seq<Position>>)
    requires forall id :: id in m <==> RangesFor(instructions, id) != []
    requires |m| == 0
    ensures forall k :: 0 <= k < |instructions| ==> instructions[k].segmentId.None?
  {
    assert m == map[];
    forall k | 0 <= k < |instructions| ensures instructions[k].segmentId.None? {
      var id := instructions[k].segmentId.GetOr("");
      assert RangesFor(instructions, id) == [];
    }
  }

  /** The `segments.map` callback: redacts one segment with its ranges. */
  method ApplyToSegment(seg: IslSegment, ranges: seq<Position>) returns (next: IslSegment)
    ensures next == RedactSegment(seg, ranges)
  {
    if |ranges| == 0 {
      return seg;
    }
    var content := seg.sanitizedContent;
    var clamped := ClampRangesToContent(ranges, |content|);
    if |clamped| == 0 {
      return seg;
    }
    var merged := MergeRanges(clamped);
    var mergedAdjacent := MergeAdjacentByPunctuation(merged, content);
    FinalRangesShape(content, ranges);
    forall k | 0 <= k < |mergedAdjacent| ensures WellFormed(mergedAdjacent[k]) { }
    var newContent := RemoveRanges(content, mergedAdjacent);
    return seg.(sanitizedContent := newContent);
  }

  /** `applyRemovalPlan`. */
  method ApplyRemovalPlan(isl: IslResult, plan: RemovalPlan) returns (out: IslResult)
    ensures out == AppliedPlan(isl, plan)
  {
    var instructions := plan.instructionsToRemove;
    if !plan.shouldRemove || |instructions| == 0 {
      if plan.shouldRemove {
        AppliedPlanNoOp(isl, plan);
      }
      return isl;
    }
    var bySegmentId := BuildRangeMap(instructions);
    if |bySegmentId| == 0 {
      EmptyMapNoSegmentIds(instructions, bySegmentId);
      AppliedPlanNoOp(isl, plan);
      return isl;
    }
    var segs := isl.segments;
    var newSegments: seq<IslSegment> := [];
    for i := 0 to |segs|
      invariant newSegments == RedactedSegments(segs[..i], instructions)
    {
      var ranges := if segs[i].id in bySegmentId then bySegmentId[segs[i].id] else [];
      assert ranges == RangesFor(instructions, segs[i].id);
      var next := ApplyToSegment(segs[i], ranges);
      RedactedSegmentsStep(segs, instructions, i);
      newSegments := newSegments + [next];
    }
    assert segs[..|segs|] == segs;
    out := IslResult(newSegments, isl.lineage, isl.metadata);
  }
}
