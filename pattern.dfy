/** Detection patterns: a validated pattern type, regular expression and base
    confidence, and the scan that finds every match of a pattern. The regular
    expression engine is an oracle: `engine(re, content, from)` is the first
    match at or after offset `from`, as `exec` on a global regex whose
    `lastIndex` is `from` returns it. */
module Patterns {
  import opened Wrappers
  import opened Js
  import opened SharedTypes

  const MAX_CONTENT_LENGTH: int := 10000000
  const MAX_PATTERN_LENGTH: int := 10000
  const MAX_MATCHES: int := 10000

  /** A compiled regular expression: its source text and flags. */
  datatype Regex = Regex(source: string, flags: string)

  datatype Pattern = Pattern(patternType: string, regex: Regex, baseConfidence: real, description: string)

  /** The `regex` argument: a source string, a `RegExp` object, or some other
      value. */
  datatype RegexArgument = RegexString(text: string) | RegexObject(re: Regex) | NotARegex

  /** Which check of `createPattern` failed, in the order they run. */
  datatype PatternError =
    | BlankPatternType
    | InvalidRegexArgument
    | NonFiniteConfidence
    | ConfidenceOutOfRange
    | BlankDescription
    | RegexTooLong
    | RegexSyntaxError

  /** What every created pattern satisfies. */
  predicate IsValidPattern(p: Pattern) {
    && !IsBlank(p.patternType) && Trim(p.patternType) == p.patternType
    && 0.0 <= p.baseConfidence <= 1.0
    && |p.regex.source| <= MAX_PATTERN_LENGTH
  }

  function RegexSource(regex: RegexArgument): string
    requires !regex.NotARegex?
  {
    if regex.RegexString? then regex.text else regex.re.source
  }

  /** `createPattern`. `description` is absent (`undefined`), a string, or
      another value; `compiles` says whether a source string is a valid regular
      expression, which only the engine can decide. A string source is
      compiled with the `i` flag; a `RegExp` is copied with its own flags. */
  function CreatePattern(patternType: string, regex: RegexArgument, baseConfidence: JsNum<real>,
                         description: Option<Typed<string>>, compiles: bool): (r: Result<Pattern, PatternError>)
    ensures IsBlank(patternType) ==> r == Err(BlankPatternType)
    ensures r.Ok? <==>
      && !IsBlank(patternType)
      && (regex.RegexObject? || (regex.RegexString? && regex.text != ""))
      && baseConfidence.Finite? && 0.0 <= baseConfidence.value <= 1.0
      && (description.None? || (description.value.Typed? && !IsBlank(description.value.value)))
      && |RegexSource(regex)| <= MAX_PATTERN_LENGTH
      && (regex.RegexString? ==> compiles)
    ensures r.Ok? ==>
      && IsValidPattern(r.value)
      && r.value.patternType == Trim(patternType)
      && r.value.baseConfidence == baseConfidence.value
      && r.value.regex.source == RegexSource(regex)
      && (regex.RegexString? ==> r.value.regex.flags == "i")
      && (regex.RegexObject? ==> r.value.regex == regex.re)
      && r.value.description == (if description.None? then "" else Trim(description.value.value))
  {
    if IsBlank(patternType) then Err(BlankPatternType)
    else if regex.NotARegex? || regex == RegexString("") then Err(InvalidRegexArgument)
    else if baseConfidence.NonFinite? then Err(NonFiniteConfidence)
    else if baseConfidence.value < 0.0 || baseConfidence.value > 1.0 then Err(ConfidenceOutOfRange)
    else if description.Some? && (description.value.Untyped? || IsBlank(description.value.value)) then Err(BlankDescription)
    else if |RegexSource(regex)| > MAX_PATTERN_LENGTH then Err(RegexTooLong)
    else if regex.RegexString? && !compiles then Err(RegexSyntaxError)
    else
      TrimIdempotent(patternType);
      var re := if regex.RegexString? then Regex(regex.text, "i") else regex.re;
      var text := if description.None? then "" else Trim(description.value.value);
      Ok(Pattern(Trim(patternType), re, baseConfidence.value, text))
  }

  /** One result of `exec`: where the match starts and its text. */
  datatype ExecMatch = ExecMatch(index: nat, text: string)

  /** The regular-expression oracle. */
  type RegexEngine = (Regex, string, nat) -> Option<ExecMatch>

  /** A sound engine returns a match at or after `from`, inside the content,
      whose text is the content at that place. */
  ghost predicate SoundEngine(engine: RegexEngine) {
    forall re: Regex, content: string, from: nat :: engine(re, content, from).Some? ==>
      var m := engine(re, content, from).value;
      from <= m.index && m.index + |m.text| <= |content| && content[m.index..m.index + |m.text|] == m.text
  }

  datatype PatternMatch = PatternMatch(matched: string, position: Position)

  /** The scan from offset `from` with room for `budget` more matches: stop when
      the budget is spent or there is no further match; a zero-width match is
      kept and ends the scan; otherwise continue after the match. */
  function MatchesFrom(engine: RegexEngine, re: Regex, content: string, from: nat, budget: int): (ms: seq<PatternMatch>)
    ensures budget <= 0 ==> ms == []
    ensures |ms| <= if budget <= 0 then 0 else budget
    decreases if budget <= 0 then 0 else budget
  {
    if budget <= 0 then []
    else match engine(re, content, from)
      case None => []
      case Some(m) =>
        var pm := PatternMatch(m.text, Position(m.index, m.index + |m.text|));
        if |m.text| == 0 then [pm]
        else [pm] + MatchesFrom(engine, re, content, m.index + |m.text|, budget - 1)
  }

  /** Each match's position starts at a non-negative offset and spans its text,
      and only the last match can be zero-width. */
  predicate MatchesShaped(ms: seq<PatternMatch>) {
    && (forall k :: 0 <= k < |ms| ==> ms[k].position.end == ms[k].position.start + |ms[k].matched|)
    && (forall k :: 0 <= k < |ms| - 1 ==> |ms[k].matched| > 0)
    && (forall k :: 0 <= k < |ms| ==> ms[k].position.start >= 0)
  }

  /** The scan's matches have that shape. */
  lemma {:induction false} MatchesFromShape(engine: RegexEngine, re: Regex, content: string, from: nat, budget: int)
    ensures MatchesShaped(MatchesFrom(engine, re, content, from, budget))
    decreases if budget <= 0 then 0 else budget
  {
    if budget > 0 && engine(re, content, from).Some? {
      var m := engine(re, content, from).value;
      if |m.text| == 0 {
        assert MatchesFrom(engine, re, content, from, budget) == [PatternMatch(m.text, Position(m.index, m.index))];
      } else {
        var next: nat := m.index + |m.text|;
        var pm := PatternMatch(m.text, Position(m.index, next));
        var rest := MatchesFrom(engine, re, content, next, budget - 1);
        MatchesFromShape(engine, re, content, next, budget - 1);
        assert MatchesFrom(engine, re, content, from, budget) == [pm] + rest;
        assert forall k :: 1 <= k < |rest| + 1 ==> ([pm] + rest)[k] == rest[k - 1];
      }
    }
  }

  /** One turn of the scan. */
  lemma MatchesFromUnfold(engine: RegexEngine, re: Regex, content: string, from: nat, budget: int)
    requires budget > 0
    ensures engine(re, content, from).None? ==> MatchesFrom(engine, re, content, from, budget) == []
    ensures engine(re, content, from).Some? ==>
      var m := engine(re, content, from).value;
      var pm := PatternMatch(m.text, Position(m.index, m.index + |m.text|));
      MatchesFrom(engine, re, content, from, budget)
        == [pm] + (if |m.text| == 0 then [] else MatchesFrom(engine, re, content, m.index + |m.text|, budget - 1))
  {
    if engine(re, content, from).Some? {
      var m := engine(re, content, from).value;
      if |m.text| == 0 {
        assert [PatternMatch(m.text, Position(m.index, m.index + |m.text|))] + [] == [PatternMatch(m.text, Position(m.index, m.index + |m.text|))];
      }
    }
  }

  /** Every match lies inside `content` at or after `from` and its text is the
      content at its position. */
  predicate MatchesInside(ms: seq<PatternMatch>, content: string, from: nat) {
    forall k :: 0 <= k < |ms| ==>
      && from <= ms[k].position.start
      && ms[k].position.start <= ms[k].position.end <= |content|
      && content[ms[k].position.start..ms[k].position.end] == ms[k].matched
  }

  /** Matches come in increasing order without overlap. */
  predicate NonOverlapping(ms: seq<PatternMatch>) {
    forall k :: 0 <= k < |ms| - 1 ==> ms[k].position.end <= ms[k + 1].position.start
  }

  /** With a sound engine the matches lie inside the content at or after
      `from`, in increasing order without overlap, and each one's text is the
      content at its position. */
  lemma {:induction false} MatchesFromSound(engine: RegexEngine, re: Regex, content: string, from: nat, budget: int)
    requires SoundEngine(engine)
    ensures MatchesInside(MatchesFrom(engine, re, content, from, budget), content, from)
    ensures NonOverlapping(MatchesFrom(engine, re, content, from, budget))
    decreases if budget <= 0 then 0 else budget
  {
    if budget > 0 && engine(re, content, from).Some? {
      var m := engine(re, content, from).value;
      if |m.text| > 0 {
        var next: nat := m.index + |m.text|;
        var pm := PatternMatch(m.text, Position(m.index, next));
        var rest := MatchesFrom(engine, re, content, next, budget - 1);
        var ms := MatchesFrom(engine, re, content, from, budget);
        assert ms == [pm] + rest;
        assert from <= m.index && next <= |content| && content[m.index..next] == m.text;
        MatchesFromSound(engine, re, content, next, budget - 1);
        ConsInside(pm, rest, content, from, next);
      }
    }
  }

  lemma ConsInside(pm: PatternMatch, rest: seq<PatternMatch>, content: string, from: nat, next: nat)
    requires from <= pm.position.start <= pm.position.end == next <= |content|
    requires content[pm.position.start..pm.position.end] == pm.matched
    requires MatchesInside(rest, content, next) && NonOverlapping(rest)
    ensures MatchesInside([pm] + rest, content, from) && NonOverlapping([pm] + rest)
  {
    var ms := [pm] + rest;
    forall k | 1 <= k < |ms|
      ensures ms[k] == rest[k - 1]
    {
    }
  }

  /** Why `findAllMatches` throws. */
  datatype MatchError = EmptyContent | ContentTooLong

  /** What `findAllMatches` returns: the content must be non-empty and at most
      `MAX_CONTENT_LENGTH` long; a budget of 0 or less finds nothing. */
  function FoundMatches(p: Pattern, content: string, maxMatches: int, engine: RegexEngine): (r: Result<seq<PatternMatch>, MatchError>)
    ensures |content| == 0 <==> r == Err(EmptyContent)
    ensures r.Err? <==> |content| == 0 || |content| > MAX_CONTENT_LENGTH
    ensures r.Ok? && maxMatches <= 0 ==> r.value == []
    ensures r.Ok? ==> |r.value| <= maxMatches || r.value == []
    ensures r.Ok? ==> forall k :: 0 <= k < |r.value| ==>
      r.value[k].position.start >= 0 && r.value[k].position.end == r.value[k].position.start + |r.value[k].matched|
  {
    if |content| == 0 then Err(EmptyContent)
    else if |content| > MAX_CONTENT_LENGTH then Err(ContentTooLong)
    else
      MatchesFromShape(engine, p.regex, content, 0, maxMatches);
      Ok(MatchesFrom(engine, p.regex, content, 0, maxMatches))
  }

  /** With a sound engine the matches `findAllMatches` returns lie inside the
      content, in increasing order without overlap, each one's text being the
      content at its position. */
  lemma FoundMatchesSound(p: Pattern, content: string, maxMatches: int, engine: RegexEngine)
    requires SoundEngine(engine)
    ensures var r := FoundMatches(p, content, maxMatches, engine);
      r.Ok? ==> MatchesInside(r.value, content, 0) && NonOverlapping(r.value)
  {
    MatchesFromSound(engine, p.regex, content, 0, maxMatches);
  }

  /** `matchesPattern`: the same content checks as `findAllMatches`, then
      whether the pattern matches anywhere. */
  function MatchesPattern(p: Pattern, content: string, engine: RegexEngine): (r: Result<bool, MatchError>)
    ensures |content| == 0 <==> r == Err(EmptyContent)
    ensures r.Err? <==> |content| == 0 || |content| > MAX_CONTENT_LENGTH
    ensures r.Ok? ==> (r.value <==> engine(p.regex, content, 0).Some?)
  {
    if |content| == 0 then Err(EmptyContent)
    else if |content| > MAX_CONTENT_LENGTH then Err(ContentTooLong)
    else Ok(engine(p.regex, content, 0).Some?)
  }

  /** `findMatch`: the same content checks, then the first match, if any. */
  function FindMatch(p: Pattern, content: string, engine: RegexEngine): (r: Result<Option<PatternMatch>, MatchError>)
    ensures |content| == 0 <==> r == Err(EmptyContent)
    ensures r.Err? <==> |content| == 0 || |content| > MAX_CONTENT_LENGTH
    ensures r.Ok? && r.value.Some? ==> r.value.value.position.end == r.value.value.position.start + |r.value.value.matched|
  {
    if |content| == 0 then Err(EmptyContent)
    else if |content| > MAX_CONTENT_LENGTH then Err(ContentTooLong)
    else match engine(p.regex, content, 0)
      case None => Ok(None)
      case Some(m) => Ok(Some(PatternMatch(m.text, Position(m.index, m.index + |m.text|))))
  }

  /** The three queries agree: a pattern matches exactly when `findMatch`
      finds something, and that is exactly the first match `findAllMatches`
      returns with a positive budget. */
  lemma FindMatchIsFirstOfAll(p: Pattern, content: string, maxMatches: int, engine: RegexEngine)
    requires maxMatches > 0
    ensures FindMatch(p, content, engine).Ok? <==> FoundMatches(p, content, maxMatches, engine).Ok?
    ensures MatchesPattern(p, content, engine).Ok? <==> FindMatch(p, content, engine).Ok?
    ensures FindMatch(p, content, engine).Ok? ==>
      && (MatchesPattern(p, content, engine).value <==> FindMatch(p, content, engine).value.Some?)
      && (FindMatch(p, content, engine).value.None? <==> FoundMatches(p, content, maxMatches, engine).value == [])
      && (FindMatch(p, content, engine).value.Some? ==>
            FoundMatches(p, content, maxMatches, engine).value[0] == FindMatch(p, content, engine).value.value)
  {
    if 0 < |content| <= MAX_CONTENT_LENGTH {
      MatchesFromUnfold(engine, p.regex, content, 0, maxMatches);
    }
  }

  /** `findAllMatches`: calls `exec` on a global copy of the pattern's regex
      until the budget is spent, there is no further match, or a match is
      zero-width. */
  method FindAllMatches(p: Pattern, content: string, maxMatches: int, engine: RegexEngine)
    returns (r: Result<seq<PatternMatch>, MatchError>)
    ensures r == FoundMatches(p, content, maxMatches, engine)
  {
    if |content| == 0 {
      return Err(EmptyContent);
    }
    if |content| > MAX_CONTENT_LENGTH {
      return Err(ContentTooLong);
    }
    if maxMatches <= 0 {
      return Ok([]);
    }
    ghost var all := MatchesFrom(engine, p.regex, content, 0, maxMatches);
    var results: seq<PatternMatch> := [];
    var lastIndex: nat := 0;
    var done := false;
    assert [] + all == all;
    while !done && |results| < maxMatches
      invariant done ==> results == all
      invariant !done ==> results + MatchesFrom(engine, p.regex, content, lastIndex, maxMatches - |results|) == all
      decreases maxMatches - |results|, if done then 0 else 1
    {
      results, lastIndex, done := ScanNext(engine, p.regex, content, results, lastIndex, maxMatches - |results|);
    }
    if !done {
      assert MatchesFrom(engine, p.regex, content, lastIndex, maxMatches - |results|) == [];
      assert results + [] == results;
    }
    return Ok(results);
  }

  /** One turn of the loop in `findAllMatches`: run `exec` from `lastIndex`,
      keep the match, and stop on no match or a zero-width one. */
  method ScanNext(engine: RegexEngine, re: Regex, content: string, results: seq<PatternMatch>, lastIndex: nat, budget: int)
    returns (results': seq<PatternMatch>, lastIndex': nat, done: bool)
    requires budget > 0
    ensures done ==> results' == results + MatchesFrom(engine, re, content, lastIndex, budget)
    ensures !done ==> |results'| == |results| + 1
    ensures !done ==>
      results' + MatchesFrom(engine, re, content, lastIndex', budget - 1)
        == results + MatchesFrom(engine, re, content, lastIndex, budget)
    ensures |results| <= |results'| <= |results| + 1
  {
    MatchesFromUnfold(engine, re, content, lastIndex, budget);
    var m := engine(re, content, lastIndex);
    lastIndex' := lastIndex;
    if m.None? {
      assert results + [] == results;
      return results, lastIndex, true;
    }
    var pm := PatternMatch(m.value.text, Position(m.value.index, m.value.index + |m.value.text|));
    results' := results + [pm];
    if |m.value.text| == 0 {
      done := true;
    } else {
      lastIndex' := m.value.index + |m.value.text|;
      done := false;
      var rest := MatchesFrom(engine, re, content, lastIndex', budget - 1);
      assert results' + rest == results + ([pm] + rest);
    }
  }
}
