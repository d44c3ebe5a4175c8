/** Pattern-based threat detection over one piece of content: every pattern
    in order, every match of each in order, bounded per pattern and in total.
    The built-in pattern corpus and the regular-expression engine are
    parameters. */
module Detect {
  import opened Wrappers
  import opened Js
  import opened SharedTypes
  import opened Patterns
  import opened PiDetections

  const PROMPT_INJECTION: string := "prompt-injection"
  const JAILBREAK: string := "jailbreak"
  const ROLE_HIJACKING: string := "role_hijacking"
  const SCRIPT_LIKE: string := "script_like"
  const HIDDEN_TEXT: string := "hidden_text"

  /** The threat taxonomy, in declaration order. */
  const THREAT_TYPES: seq<string> := [PROMPT_INJECTION, JAILBREAK, ROLE_HIJACKING, SCRIPT_LIKE, HIDDEN_TEXT]

  const MAX_PER_PATTERN: int := 200
  const MAX_TOTAL_DETECTIONS: int := 2000

  /** The taxonomy has five distinct identifiers, none of them blank. */
  lemma ThreatTypesDistinct()
    ensures |THREAT_TYPES| == 5
    ensures forall i, j :: 0 <= i < j < |THREAT_TYPES| ==> THREAT_TYPES[i] != THREAT_TYPES[j]
    ensures forall i :: 0 <= i < |THREAT_TYPES| ==> |THREAT_TYPES[i]| > 0
  {
    assert THREAT_TYPES[0][0] == 'p' && THREAT_TYPES[1][0] == 'j' && THREAT_TYPES[2][0] == 'r';
    assert THREAT_TYPES[3][0] == 's' && THREAT_TYPES[4][0] == 'h';
  }

  datatype DetectOptions = DetectOptions(maxTotal: Option<int>, maxPerPattern: Option<int>, patterns: Option<seq<Pattern>>)

  /** Why `detectThreats` throws: the content is not a string, the scan
      rejected the content, or a match could not become a detection. */
  datatype DetectError = ContentNotString | MatchFailed(matchError: MatchError) | InvalidDetection(detectionError: DetectionError)



  /** The detection a match of `p` becomes. */
  function DetectionOf(p: Pattern, m: PatternMatch): Result<PiDetection, DetectionError> {
    CreatePiDetection(p.patternType, m.matched, PositionArg(Finite(m.position.start), Finite(m.position.end)), Finite(p.baseConfidence))
  }

  /** A detection that comes from a match of `p`. */
  predicate FromPattern(d: PiDetection, p: Pattern) {
    && IsValidDetection(d)
    && d.patternType == Trim(p.patternType)
    && d.confidence == p.baseConfidence
  }

  /** A detection built from a match of `p` comes from `p`. */
  lemma DetectionOfFromPattern(p: Pattern, m: PatternMatch)
    ensures DetectionOf(p, m).Ok? ==> FromPattern(DetectionOf(p, m).value, p)
  {
  }

  /** A non-empty match of a valid pattern, whose end is its start plus its
      length, always becomes a detection. */
  lemma DetectionOfSucceeds(p: Pattern, m: PatternMatch)
    requires IsValidPattern(p) && |m.matched| > 0
    requires m.position.start >= 0 && m.position.end == m.position.start + |m.matched|
    ensures DetectionOf(p, m).Ok?
  {
  }

  /** A detection whose text is the content at its position. */
  predicate InContent(d: PiDetection, content: string) {
    0 <= d.position.start <= d.position.end <= |content| && content[d.position.start..d.position.end] == d.matchedPattern
  }

  /** The inner loop: zero-width matches are skipped, every other match is
      appended as a detection, and the loop stops once `maxTotal` detections
      are held. */
  function AddMatches(p: Pattern, ms: seq<PatternMatch>, acc: seq<PiDetection>, maxTotal: int): (r: Result<seq<PiDetection>, DetectError>)
    ensures r.Err? ==> r.error.InvalidDetection?
    ensures r.Ok? ==> |acc| <= |r.value| <= |acc| + |ms| && r.value[..|acc|] == acc
    ensures r.Ok? && |acc| < maxTotal ==> |r.value| <= maxTotal
    decreases |ms|
  {
    if |ms| == 0 then Ok(acc)
    else if |ms[0].matched| == 0 then AddMatches(p, ms[1..], acc, maxTotal)
    else
      var d := DetectionOf(p, ms[0]);
      if d.Err? then Err(InvalidDetection(d.error))
      else
        var next := acc + [d.value];
        if |next| >= maxTotal then Ok(next)
        else
          var r := AddMatches(p, ms[1..], next, maxTotal);
          PrefixOfExtension(acc, next, r);
          r
  }

  /** A result that extends `next`, which extends `acc`, extends `acc`. */
  lemma PrefixOfExtension(acc: seq<PiDetection>, next: seq<PiDetection>, r: Result<seq<PiDetection>, DetectError>)
    requires |acc| <= |next| && next[..|acc|] == acc
    requires r.Ok? ==> |next| <= |r.value| && r.value[..|next|] == next
    ensures r.Ok? ==> r.value[..|acc|] == acc
  {
    if r.Ok? {
      assert r.value[..|acc|] == r.value[..|next|][..|acc|];
    }
  }

  /** Every detection the inner loop appends is valid and carries the
      pattern's type and base confidence. */
  lemma {:induction false} AddMatchesFromPattern(p: Pattern, ms: seq<PatternMatch>, acc: seq<PiDetection>, maxTotal: int)
    ensures var r := AddMatches(p, ms, acc, maxTotal);
      r.Ok? ==> forall k :: |acc| <= k < |r.value| ==> FromPattern(r.value[k], p)
    decreases |ms|
  {
    var r := AddMatches(p, ms, acc, maxTotal);
    if |ms| > 0 && r.Ok? {
      if |ms[0].matched| == 0 {
        assert r == AddMatches(p, ms[1..], acc, maxTotal);
        AddMatchesFromPattern(p, ms[1..], acc, maxTotal);
      } else {
        DetectionOfFromPattern(p, ms[0]);
        var d := DetectionOf(p, ms[0]).value;
        var acc' := acc + [d];
        if |acc| + 1 < maxTotal {
          assert r == AddMatches(p, ms[1..], acc', maxTotal);
          AddMatchesFromPattern(p, ms[1..], acc', maxTotal);
          assert r.value[..|acc'|] == acc';
          forall k | |acc| <= k < |r.value|
            ensures FromPattern(r.value[k], p)
          {
            if k == |acc| {
              assert r.value[k] == acc'[k];
            }
          }
        } else {
          assert r.value == acc';
          forall k | |acc| <= k < |r.value|
            ensures FromPattern(r.value[k], p)
          {
            assert k == |acc|;
          }
        }
      }
    }
  }

  /** The outer loop from the patterns still to scan and the detections held:
      stop at the end of the patterns or once `maxTotal` detections are held;
      otherwise scan the next pattern with a budget of the smaller of
      `maxPerPattern` and what is left of `maxTotal`. */
  function DetectFrom(patterns: seq<Pattern>, content: string, engine: RegexEngine, maxTotal: int, maxPerPattern: int,
                      acc: seq<PiDetection>): (r: Result<seq<PiDetection>, DetectError>)
    ensures r.Err? ==> !r.error.ContentNotString?
    ensures r.Ok? ==> |acc| <= |r.value| && r.value[..|acc|] == acc
    ensures r.Ok? && |acc| <= maxTotal ==> |r.value| <= maxTotal
    decreases |patterns|
  {
    if |patterns| == 0 || |acc| >= maxTotal then Ok(acc)
    else
      var cap := MinInt(maxPerPattern, maxTotal - |acc|);
      var found := FoundMatches(patterns[0], content, cap, engine);
      if found.Err? then Err(MatchFailed(found.error))
      else
        var added := AddMatches(patterns[0], found.value, acc, maxTotal);
        if added.Err? then added
        else
          var r := DetectFrom(patterns[1..], content, engine, maxTotal, maxPerPattern, added.value);
          assert r.Ok? ==> r.value[..|acc|] == r.value[..|added.value|][..|acc|];
          r
  }

  /** One step of the outer loop, for the method that runs it. */
  lemma DetectFromStep(patterns: seq<Pattern>, content: string, engine: RegexEngine, maxTotal: int, maxPerPattern: int,
                       acc: seq<PiDetection>, found: Result<seq<PatternMatch>, MatchError>)
    requires |patterns| > 0 && |acc| < maxTotal
    requires found == FoundMatches(patterns[0], content, MinInt(maxPerPattern, maxTotal - |acc|), engine)
    ensures found.Err? ==> DetectFrom(patterns, content, engine, maxTotal, maxPerPattern, acc) == Err(MatchFailed(found.error))
    ensures found.Ok? ==>
      var added := AddMatches(patterns[0], found.value, acc, maxTotal);
      DetectFrom(patterns, content, engine, maxTotal, maxPerPattern, acc)
        == if added.Err? then added else DetectFrom(patterns[1..], content, engine, maxTotal, maxPerPattern, added.value)
  {
  }

  function EffectiveMaxTotal(options: DetectOptions): int {
    MinInt(options.maxTotal.GetOr(MAX_TOTAL_DETECTIONS), MAX_MATCHES)
  }

  function EffectivePatterns(options: DetectOptions, defaultPatterns: seq<Pattern>): seq<Pattern> {
    options.patterns.GetOr(defaultPatterns)
  }

  /** What `detectThreats` returns. Unset options fall back to the default
      total, per-pattern cap and pattern list; the total is never above
      `MAX_MATCHES`. */
  function Detections(content: Typed<string>, options: DetectOptions, defaultPatterns: seq<Pattern>, engine: RegexEngine)
    : (r: Result<seq<PiDetection>, DetectError>)
    ensures content.Untyped? <==> r == Err(ContentNotString)
    ensures content.Typed? && |content.value| == 0 ==> r == Ok([])
    ensures EffectiveMaxTotal(options) <= 0 || |EffectivePatterns(options, defaultPatterns)| == 0 ==> r.Ok? || r == Err(ContentNotString)
    ensures r.Ok? ==> |r.value| <= EffectiveMaxTotal(options) || r.value == []
  {
    var maxTotal := EffectiveMaxTotal(options);
    var maxPerPattern := options.maxPerPattern.GetOr(MAX_PER_PATTERN);
    var patterns := EffectivePatterns(options, defaultPatterns);
    if content.Untyped? then Err(ContentNotString)
    else if |content.value| == 0 then Ok([])
    else if maxTotal <= 0 || |patterns| == 0 then Ok([])
    else DetectFrom(patterns, content.value, engine, maxTotal, maxPerPattern, [])
  }

  /** The total never exceeds `MAX_MATCHES`, and never exceeds
      `MAX_TOTAL_DETECTIONS` when no total is given. */
  lemma DetectionsBounded(content: Typed<string>, options: DetectOptions, defaultPatterns: seq<Pattern>, engine: RegexEngine)
    ensures var r := Detections(content, options, defaultPatterns, engine);
      r.Ok? ==> |r.value| <= MAX_MATCHES && (options.maxTotal.None? ==> |r.value| <= MAX_TOTAL_DETECTIONS)
  {
  }

  /** A detection that comes from a match of one of `patterns`. */
  ghost predicate FromSomePattern(d: PiDetection, patterns: seq<Pattern>) {
    exists j :: 0 <= j < |patterns| && FromPattern(d, patterns[j])
  }

  lemma FromSomePatternCons(d: PiDetection, patterns: seq<Pattern>)
    requires |patterns| > 0
    requires FromPattern(d, patterns[0]) || FromSomePattern(d, patterns[1..])
    ensures FromSomePattern(d, patterns)
  {
    if !FromPattern(d, patterns[0]) {
      var j :| 0 <= j < |patterns[1..]| && FromPattern(d, patterns[1..][j]);
      assert patterns[1..][j] == patterns[j + 1];
    }
  }

  /** Every detection is valid and carries the type and base confidence of
      one of the patterns scanned; in particular no detection is zero-width. */
  lemma {:induction false} DetectFromFromPatterns(patterns: seq<Pattern>, content: string, engine: RegexEngine,
                                                  maxTotal: int, maxPerPattern: int, acc: seq<PiDetection>)
    ensures var r := DetectFrom(patterns, content, engine, maxTotal, maxPerPattern, acc);
      r.Ok? ==> forall k :: |acc| <= k < |r.value| ==> FromSomePattern(r.value[k], patterns)
    decreases |patterns|
  {
    var r := DetectFrom(patterns, content, engine, maxTotal, maxPerPattern, acc);
    if |patterns| > 0 && |acc| < maxTotal && r.Ok? {
      var cap := MinInt(maxPerPattern, maxTotal - |acc|);
      var found := FoundMatches(patterns[0], content, cap, engine);
      DetectFromStep(patterns, content, engine, maxTotal, maxPerPattern, acc, found);
      var ms := found.value;
      var next := AddMatches(patterns[0], ms, acc, maxTotal).value;
      AddMatchesFromPattern(patterns[0], ms, acc, maxTotal);
      DetectFromFromPatterns(patterns[1..], content, engine, maxTotal, maxPerPattern, next);
      forall k | |acc| <= k < |r.value|
        ensures FromSomePattern(r.value[k], patterns)
      {
        if k < |next| {
          assert r.value[k] == r.value[..|next|][k] == next[k];
        }
        FromSomePatternCons(r.value[k], patterns);
      }
    }
  }

  /** Matches that lie in the content become detections that lie in the
      content. */
  lemma {:induction false} AddMatchesInContent(p: Pattern, ms: seq<PatternMatch>, acc: seq<PiDetection>, maxTotal: int, content: string)
    requires MatchesInside(ms, content, 0)
    requires forall k :: 0 <= k < |acc| ==> InContent(acc[k], content)
    ensures var r := AddMatches(p, ms, acc, maxTotal);
      r.Ok? ==> forall k :: 0 <= k < |r.value| ==> InContent(r.value[k], content)
    decreases |ms|
  {
    var r := AddMatches(p, ms, acc, maxTotal);
    if |ms| > 0 && r.Ok? {
      assert MatchesInside(ms[1..], content, 0) by {
        forall k | 0 <= k < |ms[1..]|
          ensures ms[1..][k] == ms[k + 1]
        {
        }
      }
      if |ms[0].matched| == 0 {
        assert r == AddMatches(p, ms[1..], acc, maxTotal);
        AddMatchesInContent(p, ms[1..], acc, maxTotal, content);
      } else {
        var d := DetectionOf(p, ms[0]).value;
        assert d.matchedPattern == ms[0].matched && d.position == ms[0].position;
        var acc' := acc + [d];
        forall k | 0 <= k < |acc'|
          ensures InContent(acc'[k], content)
        {
          if k < |acc| { assert acc'[k] == acc[k]; }
        }
        if |acc| + 1 < maxTotal {
          assert r == AddMatches(p, ms[1..], acc', maxTotal);
          AddMatchesInContent(p, ms[1..], acc', maxTotal, content);
        } else {
          assert r.value == acc';
        }
      }
    }
  }

  /** With a sound engine every detection's text is the content at its
      position. */
  lemma {:induction false} DetectFromInContent(patterns: seq<Pattern>, content: string, engine: RegexEngine,
                                               maxTotal: int, maxPerPattern: int, acc: seq<PiDetection>)
    requires SoundEngine(engine)
    requires forall k :: 0 <= k < |acc| ==> InContent(acc[k], content)
    ensures var r := DetectFrom(patterns, content, engine, maxTotal, maxPerPattern, acc);
      r.Ok? ==> forall k :: 0 <= k < |r.value| ==> InContent(r.value[k], content)
    decreases |patterns|
  {
    var r := DetectFrom(patterns, content, engine, maxTotal, maxPerPattern, acc);
    if |patterns| > 0 && |acc| < maxTotal && r.Ok? {
      var cap := MinInt(maxPerPattern, maxTotal - |acc|);
      var found := FoundMatches(patterns[0], content, cap, engine);
      DetectFromStep(patterns, content, engine, maxTotal, maxPerPattern, acc, found);
      FoundMatchesSound(patterns[0], content, cap, engine);
      AddMatchesInContent(patterns[0], found.value, acc, maxTotal, content);
      var added := AddMatches(patterns[0], found.value, acc, maxTotal);
      DetectFromInContent(patterns[1..], content, engine, maxTotal, maxPerPattern, added.value);
    }
  }

  /** Matches reported by the scan always become detections when the pattern
      is valid. */
  lemma {:induction false} AddMatchesSucceeds(p: Pattern, ms: seq<PatternMatch>, acc: seq<PiDetection>, maxTotal: int)
    requires IsValidPattern(p)
    requires forall m :: m in ms ==> m.position.start >= 0 && m.position.end == m.position.start + |m.matched|
    ensures AddMatches(p, ms, acc, maxTotal).Ok?
    decreases |ms|
  {
    if |ms| > 0 {
      var tail := ms[1..];
      if |ms[0].matched| == 0 {
        AddMatchesSucceeds(p, tail, acc, maxTotal);
        assert AddMatches(p, ms, acc, maxTotal) == AddMatches(p, tail, acc, maxTotal);
      } else {
        DetectionOfSucceeds(p, ms[0]);
        var d := DetectionOf(p, ms[0]).value;
        if |acc| + 1 < maxTotal {
          AddMatchesSucceeds(p, tail, acc + [d], maxTotal);
          assert AddMatches(p, ms, acc, maxTotal) == AddMatches(p, tail, acc + [d], maxTotal);
        }
      }
    }
  }

  /** With valid patterns and content of allowed length the scan never throws. */
  lemma {:induction false} DetectFromSucceeds(patterns: seq<Pattern>, content: string, engine: RegexEngine,
                                              maxTotal: int, maxPerPattern: int, acc: seq<PiDetection>)
    requires forall k :: 0 <= k < |patterns| ==> IsValidPattern(patterns[k])
    requires 0 < |content| <= MAX_CONTENT_LENGTH
    ensures DetectFrom(patterns, content, engine, maxTotal, maxPerPattern, acc).Ok?
    decreases |patterns|
  {
    if |patterns| > 0 && |acc| < maxTotal {
      var cap := MinInt(maxPerPattern, maxTotal - |acc|);
      var found := FoundMatches(patterns[0], content, cap, engine);
      var ms := found.value;
      forall m | m in ms
        ensures m.position.start >= 0 && m.position.end == m.position.start + |m.matched|
      {
        var k :| 0 <= k < |ms| && ms[k] == m;
      }
      AddMatchesSucceeds(patterns[0], ms, acc, maxTotal);
      DetectFromStep(patterns, content, engine, maxTotal, maxPerPattern, acc, found);
      var added := AddMatches(patterns[0], ms, acc, maxTotal);
      var rest := patterns[1..];
      assert forall k :: 0 <= k < |rest| ==> rest[k] == patterns[k + 1];
      DetectFromSucceeds(rest, content, engine, maxTotal, maxPerPattern, added.value);
    }
  }

  /** `detectThreats` on a string with valid patterns: it does not throw, and
      every detection is valid, comes from one of the patterns, and with a
      sound engine lies in the content. */
  lemma DetectionsSound(content: string, options: DetectOptions, defaultPatterns: seq<Pattern>, engine: RegexEngine)
    requires var ps := EffectivePatterns(options, defaultPatterns); forall k :: 0 <= k < |ps| ==> IsValidPattern(ps[k])
    requires |content| <= MAX_CONTENT_LENGTH
    ensures var r := Detections(Typed(content), options, defaultPatterns, engine);
      && r.Ok?
      && (forall k :: 0 <= k < |r.value| ==> FromSomePattern(r.value[k], EffectivePatterns(options, defaultPatterns)))
      && (SoundEngine(engine) ==> forall k :: 0 <= k < |r.value| ==> InContent(r.value[k], content))
  {
    var maxTotal := EffectiveMaxTotal(options);
    var maxPerPattern := options.maxPerPattern.GetOr(MAX_PER_PATTERN);
    var patterns := EffectivePatterns(options, defaultPatterns);
    if |content| > 0 && maxTotal > 0 && |patterns| > 0 {
      DetectFromSucceeds(patterns, content, engine, maxTotal, maxPerPattern, []);
      DetectFromFromPatterns(patterns, content, engine, maxTotal, maxPerPattern, []);
      if SoundEngine(engine) {
        DetectFromInContent(patterns, content, engine, maxTotal, maxPerPattern, []);
      }
    }
  }

  /** The matches of a scan that are not zero-width, in scan order. */
  function NonEmptyMatches(ms: seq<PatternMatch>): (ne: seq<PatternMatch>)
    ensures |ne| <= |ms|
    ensures forall k :: 0 <= k < |ne| ==> |ne[k].matched| > 0
  {
    if |ms| == 0 then []
    else if |ms[0].matched| == 0 then NonEmptyMatches(ms[1..])
    else [ms[0]] + NonEmptyMatches(ms[1..])
  }

  /** The `n` detections of `ds` from offset `from` are, one for one and in
      order, the detections `p` builds from the first `n` matches of `ne`. */
  predicate BlockAt(ds: seq<PiDetection>, from: nat, n: nat, p: Pattern, ne: seq<PatternMatch>) {
    && from + n <= |ds|
    && n <= |ne|
    && forall j :: 0 <= j < n ==> DetectionOf(p, ne[j]) == Ok(ds[from + j])
  }

  /** How many detections the outer loop appends for pattern `p` while
      holding `from` of them: one per non-empty match, as many as still fit
      under `maxTotal`. */
  function BlockLength(from: nat, p: Pattern, content: string, engine: RegexEngine, maxTotal: int, maxPerPattern: int): nat {
    var found := FoundMatches(p, content, MinInt(maxPerPattern, maxTotal - from), engine);
    if found.Err? || from >= maxTotal then 0
    else MinInt(|NonEmptyMatches(found.value)|, maxTotal - from)
  }

  /** The block of `ds` at `from` is what pattern `p` contributes there: its
      scan succeeds, the block is never longer than the pattern's budget
      `min(maxPerPattern, maxTotal - from)`, and it holds the detections of
      the pattern's non-empty matches in scan order. */
  predicate HeadBlock(ds: seq<PiDetection>, from: nat, p: Pattern, content: string, engine: RegexEngine,
                      maxTotal: int, maxPerPattern: int) {
    var cap := MinInt(maxPerPattern, maxTotal - from);
    var found := FoundMatches(p, content, cap, engine);
    && found.Ok?
    && BlockLength(from, p, content, engine, maxTotal, maxPerPattern) <= MaxInt(cap, 0)
    && BlockAt(ds, from, BlockLength(from, p, content, engine, maxTotal, maxPerPattern), p, NonEmptyMatches(found.value))
  }

  /** The detections of `ds` from offset `from` are what the outer loop,
      holding `from` detections, appends for `patterns`: one `HeadBlock` per
      pattern in turn; nothing once the total is reached. */
  predicate ScanBlocks(ds: seq<PiDetection>, from: nat, patterns: seq<Pattern>, content: string, engine: RegexEngine,
                       maxTotal: int, maxPerPattern: int)
    decreases |patterns|
  {
    if |patterns| == 0 || from >= maxTotal then from == |ds|
    else
      && HeadBlock(ds, from, patterns[0], content, engine, maxTotal, maxPerPattern)
      && ScanBlocks(ds, from + BlockLength(from, patterns[0], content, engine, maxTotal, maxPerPattern),
                    patterns[1..], content, engine, maxTotal, maxPerPattern)
  }

  /** The inner loop appends the detections of the non-empty matches, in scan
      order, until `maxTotal` detections are held. */
  lemma {:induction false} AddMatchesBlock(p: Pattern, ms: seq<PatternMatch>, acc: seq<PiDetection>, maxTotal: int)
    requires |acc| < maxTotal
    ensures var r := AddMatches(p, ms, acc, maxTotal);
      var n := MinInt(|NonEmptyMatches(ms)|, maxTotal - |acc|);
      r.Ok? ==> |r.value| == |acc| + n && BlockAt(r.value, |acc|, n, p, NonEmptyMatches(ms))
    decreases |ms|
  {
    if |ms| > 0 {
      if |ms[0].matched| == 0 {
        assert AddMatches(p, ms, acc, maxTotal) == AddMatches(p, ms[1..], acc, maxTotal);
        assert NonEmptyMatches(ms) == NonEmptyMatches(ms[1..]);
        AddMatchesBlock(p, ms[1..], acc, maxTotal);
      } else if DetectionOf(p, ms[0]).Ok? {
        var next := acc + [DetectionOf(p, ms[0]).value];
        if |next| < maxTotal {
          AddMatchesBlock(p, ms[1..], next, maxTotal);
        }
        AddMatchesBlockCons(p, ms, acc, maxTotal);
      }
    }
  }

  /** The step of `AddMatchesBlock` at a non-empty first match. */
  lemma AddMatchesBlockCons(p: Pattern, ms: seq<PatternMatch>, acc: seq<PiDetection>, maxTotal: int)
    requires |acc| < maxTotal && |ms| > 0 && |ms[0].matched| > 0 && DetectionOf(p, ms[0]).Ok?
    requires var next := acc + [DetectionOf(p, ms[0]).value];
      var r := AddMatches(p, ms[1..], next, maxTotal);
      var n := MinInt(|NonEmptyMatches(ms[1..])|, maxTotal - |next|);
      |next| < maxTotal && r.Ok? ==> |r.value| == |next| + n && BlockAt(r.value, |next|, n, p, NonEmptyMatches(ms[1..]))
    ensures var r := AddMatches(p, ms, acc, maxTotal);
      var n := MinInt(|NonEmptyMatches(ms)|, maxTotal - |acc|);
      r.Ok? ==> |r.value| == |acc| + n && BlockAt(r.value, |acc|, n, p, NonEmptyMatches(ms))
  {
    var d := DetectionOf(p, ms[0]).value;
    var next := acc + [d];
    var tail := NonEmptyMatches(ms[1..]);
    var ne := NonEmptyMatches(ms);
    assert ne == [ms[0]] + tail;
    var r := AddMatches(p, ms, acc, maxTotal);
    if r.Ok? {
      var n := MinInt(|ne|, maxTotal - |acc|);
      if |next| >= maxTotal {
        assert r.value == next;
        assert n == 1;
        assert r.value[|acc|] == d;
      } else {
        assert r == AddMatches(p, ms[1..], next, maxTotal);
        assert r.value[|acc|] == r.value[..|next|][|acc|] == next[|acc|];
        BlockAtCons(r.value, |acc|, n, p, ms[0], tail);
      }
    }
  }

  /** A block whose first detection is built from `m`, followed by a block
      for `tail`, is a block for `[m] + tail`. */
  lemma BlockAtCons(ds: seq<PiDetection>, from: nat, n: nat, p: Pattern, m: PatternMatch, tail: seq<PatternMatch>)
    requires 0 < n && from < |ds| && DetectionOf(p, m) == Ok(ds[from])
    requires BlockAt(ds, from + 1, n - 1, p, tail)
    ensures BlockAt(ds, from, n, p, [m] + tail)
  {
    var build := (x: PatternMatch) => DetectionOf(p, x);
    assert BuiltBlock(ds, from + 1, n - 1, build, tail);
    BuiltBlockCons(ds, from, n, build, m, tail);
  }

  /** `BlockAt` for an arbitrary builder of detections from matches. */
  predicate BuiltBlock(ds: seq<PiDetection>, from: nat, n: nat, build: PatternMatch -> Result<PiDetection, DetectionError>,
                       ne: seq<PatternMatch>) {
    && from + n <= |ds|
    && n <= |ne|
    && forall j :: 0 <= j < n ==> build(ne[j]) == Ok(ds[from + j])
  }

  /** The step of `BlockAtCons`, for any builder. */
  lemma BuiltBlockCons(ds: seq<PiDetection>, from: nat, n: nat, build: PatternMatch -> Result<PiDetection, DetectionError>,
                       m: PatternMatch, tail: seq<PatternMatch>)
    requires 0 < n && from < |ds| && build(m) == Ok(ds[from])
    requires BuiltBlock(ds, from + 1, n - 1, build, tail)
    ensures BuiltBlock(ds, from, n, build, [m] + tail)
  {
    var ne := [m] + tail;
    forall j | 0 < j < n
      ensures build(ne[j]) == Ok(ds[from + j])
    {
      assert ne[j] == tail[j - 1];
    }
  }

  /** The outer loop appends one block per pattern, each the pattern's
      detections in match order within its budget (see `ScanBlocks`). */
  lemma {:induction false} DetectFromOrder(patterns: seq<Pattern>, content: string, engine: RegexEngine,
                                           maxTotal: int, maxPerPattern: int, acc: seq<PiDetection>)
    ensures var r := DetectFrom(patterns, content, engine, maxTotal, maxPerPattern, acc);
      r.Ok? ==> ScanBlocks(r.value, |acc|, patterns, content, engine, maxTotal, maxPerPattern)
    decreases |patterns|
  {
    var r := DetectFrom(patterns, content, engine, maxTotal, maxPerPattern, acc);
    if r.Ok? && |patterns| > 0 && |acc| < maxTotal {
      var found := FoundMatches(patterns[0], content, MinInt(maxPerPattern, maxTotal - |acc|), engine);
      var added :| found.Ok? && AddMatches(patterns[0], found.value, acc, maxTotal) == Ok(added)
                   && r == DetectFrom(patterns[1..], content, engine, maxTotal, maxPerPattern, added) by {
        DetectFromStep(patterns, content, engine, maxTotal, maxPerPattern, acc, found);
      }
      DetectFromOrder(patterns[1..], content, engine, maxTotal, maxPerPattern, added);
      ScanBlocksStep(r.value, patterns, content, engine, maxTotal, maxPerPattern, acc, found, added);
    }
  }

  /** One step of the outer loop: the block `AddMatches` appended for the
      first pattern, followed in `ds` by the blocks of the remaining ones. */
  lemma ScanBlocksStep(ds: seq<PiDetection>, patterns: seq<Pattern>, content: string, engine: RegexEngine,
                       maxTotal: int, maxPerPattern: int, acc: seq<PiDetection>,
                       found: Result<seq<PatternMatch>, MatchError>, added: seq<PiDetection>)
    requires |patterns| > 0 && |acc| < maxTotal
    requires found == FoundMatches(patterns[0], content, MinInt(maxPerPattern, maxTotal - |acc|), engine) && found.Ok?
    requires AddMatches(patterns[0], found.value, acc, maxTotal) == Ok(added)
    requires |added| <= |ds| && ds[..|added|] == added
    requires ScanBlocks(ds, |added|, patterns[1..], content, engine, maxTotal, maxPerPattern)
    ensures ScanBlocks(ds, |acc|, patterns, content, engine, maxTotal, maxPerPattern)
  {
    AddedHeadBlock(ds, patterns[0], content, engine, maxTotal, maxPerPattern, acc, found, added);
    ScanBlocksCons(ds, |acc|, patterns, content, engine, maxTotal, maxPerPattern, |added|);
  }

  /** What `AddMatches` appended for pattern `p` is the pattern's `HeadBlock`
      in any extension `ds` of the result. */
  lemma AddedHeadBlock(ds: seq<PiDetection>, p: Pattern, content: string, engine: RegexEngine,
                       maxTotal: int, maxPerPattern: int, acc: seq<PiDetection>,
                       found: Result<seq<PatternMatch>, MatchError>, added: seq<PiDetection>)
    requires |acc| < maxTotal
    requires found == FoundMatches(p, content, MinInt(maxPerPattern, maxTotal - |acc|), engine) && found.Ok?
    requires AddMatches(p, found.value, acc, maxTotal) == Ok(added)
    requires |added| <= |ds| && ds[..|added|] == added
    ensures |added| == |acc| + BlockLength(|acc|, p, content, engine, maxTotal, maxPerPattern)
    ensures HeadBlock(ds, |acc|, p, content, engine, maxTotal, maxPerPattern)
  {
    var n := BlockLength(|acc|, p, content, engine, maxTotal, maxPerPattern);
    AddMatchesBlock(p, found.value, acc, maxTotal);
    BlockAtExtension(added, ds, |acc|, n, p, NonEmptyMatches(found.value));
    assert |NonEmptyMatches(found.value)| <= |found.value|;
  }

  /** `ScanBlocks` unfolded once: the first pattern's block, then the rest. */
  lemma ScanBlocksCons(ds: seq<PiDetection>, from: nat, patterns: seq<Pattern>, content: string, engine: RegexEngine,
                       maxTotal: int, maxPerPattern: int, rest: nat)
    requires |patterns| > 0 && from < maxTotal
    requires HeadBlock(ds, from, patterns[0], content, engine, maxTotal, maxPerPattern)
    requires rest == from + BlockLength(from, patterns[0], content, engine, maxTotal, maxPerPattern)
    requires ScanBlocks(ds, rest, patterns[1..], content, engine, maxTotal, maxPerPattern)
    ensures ScanBlocks(ds, from, patterns, content, engine, maxTotal, maxPerPattern)
  {
  }

  /** A block inside `prefix` is the same block inside any extension of it. */
  lemma BlockAtExtension(prefix: seq<PiDetection>, ds: seq<PiDetection>, from: nat, n: nat, p: Pattern, ne: seq<PatternMatch>)
    requires |prefix| <= |ds| && ds[..|prefix|] == prefix
    requires BlockAt(prefix, from, n, p, ne)
    ensures BlockAt(ds, from, n, p, ne)
  {
    forall j | 0 <= j < n
      ensures DetectionOf(p, ne[j]) == Ok(ds[from + j])
    {
      assert ds[from + j] == ds[..|prefix|][from + j];
    }
  }

  /** `detectThreats` on non-empty content reports, pattern by pattern in the
      patterns' order, the detections of each pattern's non-empty matches in
      the order the scan finds them, each pattern within its budget. */
  lemma DetectionsInPatternOrder(content: string, options: DetectOptions, defaultPatterns: seq<Pattern>, engine: RegexEngine)
    requires |content| > 0
    ensures var r := Detections(Typed(content), options, defaultPatterns, engine);
      r.Ok? ==> ScanBlocks(r.value, 0, EffectivePatterns(options, defaultPatterns), content, engine,
                           EffectiveMaxTotal(options), options.maxPerPattern.GetOr(MAX_PER_PATTERN))
  {
    var maxTotal := EffectiveMaxTotal(options);
    var patterns := EffectivePatterns(options, defaultPatterns);
    if maxTotal > 0 && |patterns| > 0 {
      DetectFromOrder(patterns, content, engine, maxTotal, options.maxPerPattern.GetOr(MAX_PER_PATTERN), []);
    }
  }
  /** The inner loop of `detectThreats` over the matches of one pattern. */
  method AddMatchDetections(p: Pattern, ms: seq<PatternMatch>, acc: seq<PiDetection>, maxTotal: int)
    returns (r: Result<seq<PiDetection>, DetectError>)
    ensures r == AddMatches(p, ms, acc, maxTotal)
  {
    var detections := acc;
    var j := 0;
    while j < |ms|
      invariant 0 <= j <= |ms|
      invariant AddMatches(p, ms[j..], detections, maxTotal) == AddMatches(p, ms, acc, maxTotal)
      decreases |ms| - j
    {
      assert ms[j..][1..] == ms[j + 1..];
      var m := ms[j];
      if |m.matched| == 0 {
        j := j + 1;
        continue;
      }
      var d := DetectionOf(p, m);
      if d.Err? {
        return Err(InvalidDetection(d.error));
      }
      detections := detections + [d.value];
      if |detections| >= maxTotal {
        return Ok(detections);
      }
      j := j + 1;
    }
    return Ok(detections);
  }

  /** The outer loop of `detectThreats` over the patterns. */
  method ScanPatterns(patterns: seq<Pattern>, text: string, engine: RegexEngine, maxTotal: int, maxPerPattern: int)
    returns (r: Result<seq<PiDetection>, DetectError>)
    ensures r == DetectFrom(patterns, text, engine, maxTotal, maxPerPattern, [])
  {
    var detections: seq<PiDetection> := [];
    var i := 0;
    while i < |patterns|
      invariant 0 <= i <= |patterns|
      invariant DetectFrom(patterns[i..], text, engine, maxTotal, maxPerPattern, detections)
        == DetectFrom(patterns, text, engine, maxTotal, maxPerPattern, [])
      decreases |patterns| - i
    {
      if |detections| >= maxTotal {
        break;
      }
      var cap := MinInt(maxPerPattern, maxTotal - |detections|);
      var matches := FindAllMatches(patterns[i], text, cap, engine);
      DetectFromStep(patterns[i..], text, engine, maxTotal, maxPerPattern, detections, matches);
      if matches.Err? {
        return Err(MatchFailed(matches.error));
      }
      var added := AddMatchDetections(patterns[i], matches.value, detections, maxTotal);
      if added.Err? {
        return added;
      }
      assert patterns[i..][1..] == patterns[i + 1..];
      detections := added.value;
      i := i + 1;
    }
    return Ok(detections);
  }

  /** `detectThreats`. */
  method DetectThreats(content: Typed<string>, options: DetectOptions, defaultPatterns: seq<Pattern>, engine: RegexEngine)
    returns (r: Result<seq<PiDetection>, DetectError>)
    ensures r == Detections(content, options, defaultPatterns, engine)
  {
    var maxTotal := MinInt(options.maxTotal.GetOr(MAX_TOTAL_DETECTIONS), MAX_MATCHES);
    var maxPerPattern := options.maxPerPattern.GetOr(MAX_PER_PATTERN);
    var patterns := options.patterns.GetOr(defaultPatterns);
    if content.Untyped? {
      return Err(ContentNotString);
    }
    if |content.value| == 0 {
      return Ok([]);
    }
    if maxTotal <= 0 || |patterns| == 0 {
      return Ok([]);
    }
    r := ScanPatterns(patterns, content.value, engine, maxTotal, maxPerPattern);
  }
}
