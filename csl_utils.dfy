/** Line-based segmentation of raw content. */
module CslUtils {
  import opened Js

  /** Index of the last '\n' in `s`, or -1 when there is none. */
  function LastNewline(s: string): (i: int)
    ensures -1 <= i < |s|
    ensures i >= 0 ==> s[i] == '\n'
    ensures forall j :: i < j < |s| ==> s[j] != '\n'
  {
    if |s| == 0 then -1
    else if s[|s| - 1] == '\n' then |s| - 1
    else LastNewline(s[..|s| - 1])
  }

  /** `split('\n')`: the pieces between newlines, empty ones included. */
  function SplitLines(s: string): (r: seq<string>)
    ensures |r| >= 1
    ensures forall k :: 0 <= k < |r| ==> '\n' !in r[k]
    decreases |s|
  {
    var i := LastNewline(s);
    if i < 0 then
      assert forall j :: 0 <= j < |s| ==> s[j] != '\n';
      [s]
    else
      var last := s[i + 1..];
      assert forall j :: 0 <= j < |last| ==> last[j] == s[i + 1 + j];
      SplitLines(s[..i]) + [last]
  }

  /** Joining the pieces with newlines gives the content back. */
  lemma {:induction false} SplitLinesJoin(s: string)
    ensures Join(SplitLines(s), "\n") == s
    decreases |s|
  {
    var i := LastNewline(s);
    if i >= 0 {
      SplitLinesJoin(s[..i]);
      var parts := SplitLines(s);
      assert parts[..|parts| - 1] == SplitLines(s[..i]);
      assert s == s[..i] + "\n" + s[i + 1..];
    }
  }

  /** The trimmed lines that are not blank, in order. */
  function NonBlankTrimmed(lines: seq<string>): (r: seq<string>)
    ensures |r| <= |lines|
  {
    if |lines| == 0 then []
    else
      var rest := NonBlankTrimmed(lines[1..]);
      if IsBlank(lines[0]) then rest else [Trim(lines[0])] + rest
  }

  /** `splitByContextRules`: empty content gives no pieces; otherwise the
      content is cut at newlines, each piece is trimmed and empty pieces are
      dropped. The source cuts at runs of newlines (`/\n+/`); cutting at every
      newline only adds empty pieces, which the filter drops. */
  function SplitByContextRules(content: string): (r: seq<string>)
    ensures |content| == 0 ==> r == []
  {
    if |content| == 0 then [] else NonBlankTrimmed(SplitLines(content))
  }

  /** A piece of text that is non-empty, has no whitespace at either end and
      contains no newline. */
  predicate CleanPiece(p: string) {
    && |p| > 0
    && !IsJsWhitespace(p[0]) && !IsJsWhitespace(p[|p| - 1])
    && '\n' !in p
  }

  /** Trimming a line without newlines that is not blank gives a clean piece. */
  lemma TrimmedLineClean(line: string)
    requires '\n' !in line && !IsBlank(line)
    ensures CleanPiece(Trim(line))
  {
    TrimShape(line);
    var a := TrimOffset(line);
    var r := Trim(line);
    forall k | 0 <= k < |r|
      ensures r[k] != '\n'
    {
      assert r[k] == line[a + k];
    }
  }

  /** `p` is the trimmed form of some non-blank line. */
  ghost predicate TrimmedLineOf(p: string, lines: seq<string>) {
    exists k :: 0 <= k < |lines| && !IsBlank(lines[k]) && p == Trim(lines[k])
  }

  /** Every piece of a split is clean, and the pieces are exactly the trimmed
      non-blank lines: each such line gives a piece and each piece comes from
      such a line. */
  lemma NonBlankTrimmedPieces(lines: seq<string>)
    requires forall k :: 0 <= k < |lines| ==> '\n' !in lines[k]
    ensures forall k :: 0 <= k < |NonBlankTrimmed(lines)| ==> CleanPiece(NonBlankTrimmed(lines)[k])
    ensures forall p :: p in NonBlankTrimmed(lines) <==> TrimmedLineOf(p, lines)
  {
    NonBlankTrimmedClean(lines);
    forall p
      ensures p in NonBlankTrimmed(lines) <==> TrimmedLineOf(p, lines)
    {
      NonBlankTrimmedMember(lines, p);
    }
  }

  lemma {:induction false} NonBlankTrimmedClean(lines: seq<string>)
    requires forall k :: 0 <= k < |lines| ==> '\n' !in lines[k]
    ensures forall k :: 0 <= k < |NonBlankTrimmed(lines)| ==> CleanPiece(NonBlankTrimmed(lines)[k])
    decreases |lines|
  {
    if |lines| > 0 {
      var tail := lines[1..];
      assert forall k :: 0 <= k < |tail| ==> tail[k] == lines[k + 1];
      NonBlankTrimmedClean(tail);
      if !IsBlank(lines[0]) {
        TrimmedLineClean(lines[0]);
        ConsClean(Trim(lines[0]), NonBlankTrimmed(tail));
      }
    }
  }

  lemma ConsClean(head: string, rest: seq<string>)
    requires CleanPiece(head)
    requires forall k :: 0 <= k < |rest| ==> CleanPiece(rest[k])
    ensures forall k :: 0 <= k < |[head] + rest| ==> CleanPiece(([head] + rest)[k])
  {
    var r := [head] + rest;
    forall k | 1 <= k < |r|
      ensures r[k] == rest[k - 1]
    {
    }
  }

  lemma {:induction false} NonBlankTrimmedMember(lines: seq<string>, p: string)
    ensures p in NonBlankTrimmed(lines) <==> TrimmedLineOf(p, lines)
    decreases |lines|
  {
    if |lines| > 0 {
      NonBlankTrimmedMember(lines[1..], p);
      TrimmedLineOfCons(lines, p);
    }
  }

  /** A trimmed line of a list is the trimmed first line or a trimmed line of
      the rest. */
  lemma TrimmedLineOfCons(lines: seq<string>, p: string)
    requires |lines| > 0
    ensures TrimmedLineOf(p, lines) <==>
      (!IsBlank(lines[0]) && p == Trim(lines[0])) || TrimmedLineOf(p, lines[1..])
  {
    if TrimmedLineOf(p, lines[1..]) {
      TrimmedLineOfTail(lines, p);
    }
    if TrimmedLineOf(p, lines) {
      TrimmedLineOfSplit(lines, p);
    }
  }

  lemma TrimmedLineOfTail(lines: seq<string>, p: string)
    requires |lines| > 0 && TrimmedLineOf(p, lines[1..])
    ensures TrimmedLineOf(p, lines)
  {
    var tail := lines[1..];
    var k :| 0 <= k < |tail| && !IsBlank(tail[k]) && p == Trim(tail[k]);
    assert lines[k + 1] == tail[k];
  }

  lemma TrimmedLineOfSplit(lines: seq<string>, p: string)
    requires |lines| > 0 && TrimmedLineOf(p, lines)
    ensures (!IsBlank(lines[0]) && p == Trim(lines[0])) || TrimmedLineOf(p, lines[1..])
  {
    var k :| 0 <= k < |lines| && !IsBlank(lines[k]) && p == Trim(lines[k]);
    if k > 0 {
      assert lines[1..][k - 1] == lines[k];
    }
  }

  /** Pieces of `splitByContextRules` are clean and are exactly the trimmed
      non-blank lines of the content. */
  lemma SplitByContextRulesPieces(content: string)
    ensures forall k :: 0 <= k < |SplitByContextRules(content)| ==> CleanPiece(SplitByContextRules(content)[k])
    ensures |content| > 0 ==> forall p :: p in SplitByContextRules(content) <==> TrimmedLineOf(p, SplitLines(content))
  {
    if |content| > 0 {
      NonBlankTrimmedPieces(SplitLines(content));
    }
  }

  /** Content without newlines is a single piece, its trimmed self, unless it
      is blank. */
  lemma SingleLine(content: string)
    requires |content| > 0 && '\n' !in content
    ensures SplitByContextRules(content) == if IsBlank(content) then [] else [Trim(content)]
  {
    assert LastNewline(content) < 0;
  }
}
