/** `SecurityValidator.validate_and_sanitize`: sanitise first, then run the
    four checks on the sanitised text; the text is safe when no check failed
    with CRITICAL severity. */
module Validator {
  import opened Text
  import opened Config
  import opened Patterns
  import opened Settings
  import opened Sanitizer
  import opened Checks

  predicate CriticalFailure(r: CheckResult)
  {
    !r.passed && r.severity == Critical
  }

  /** `[r for r in results if not r.passed and r.severity == 'CRITICAL']`. */
  function CriticalFailures(results: seq<CheckResult>): (fs: seq<CheckResult>)
    ensures forall r :: r in fs <==> r in results && CriticalFailure(r)
  {
    if results == [] then []
    else (if CriticalFailure(results[0]) then [results[0]] else []) + CriticalFailures(results[1..])
  }

  /** The four results, in the order the source appends them. */
  function Results(sanitized: string, st: SecuritySettings): seq<CheckResult>
  {
    [LengthCheck(sanitized, st), PatternCheck(sanitized, st), UrlCheck(sanitized, st), CharacterCheck(sanitized, st)]
  }

  /** `validate_and_sanitize(text)`, returning `(is_safe, sanitized_text,
      results)`. */
  method ValidateAndSanitize(text: string, st: SecuritySettings, table: CategoryTable)
    returns (isSafe: bool, sanitized: string, results: seq<CheckResult>)
    ensures sanitized == Sanitized(text, st, table).0
    ensures results == Results(sanitized, st)
    ensures isSafe <==> forall i :: 0 <= i < |results| ==> !CriticalFailure(results[i])
  {
    var modifications;
    sanitized, modifications := Sanitize(text, st, table);
    results := [];
    results := results + [LengthCheck(sanitized, st)];
    var patterns := CheckPatterns(sanitized, st);
    results := results + [patterns];
    var urls := CheckUrls(sanitized, st);
    results := results + [urls];
    results := results + [CharacterCheck(sanitized, st)];
    var criticalFailures := CriticalFailures(results);
    isSafe := |criticalFailures| == 0;
    if !isSafe {
      assert criticalFailures[0] in criticalFailures;
    }
  }

  /** No result failed with CRITICAL severity. */
  predicate NoCriticalFailure(results: seq<CheckResult>)
  {
    forall i :: 0 <= i < |results| ==> !CriticalFailure(results[i])
  }

  /** Whether the pipeline calls a text safe, as a function of the text. */
  predicate Safe(text: string, st: SecuritySettings, table: CategoryTable)
  {
    NoCriticalFailure(Results(Sanitized(text, st, table).0, st))
  }

  /** The checks pass a sanitised text `s` exactly when it is within both
      length maxima, matches no critical pattern (with the pattern check
      on), and holds no URLs the policy forbids (with the URL check on).
      Too-short text and character anomalies only warn. */
  lemma ResultsSafeIff(s: string, st: SecuritySettings)
    ensures var urls := FindAll(st.urlPattern, s, st.engine);
            NoCriticalFailure(Results(s, st)) <==>
              && |s| <= st.maxChars && |Words(s)| <= st.maxWords
              && !(st.patternsEnabled && AnyMatch(st.criticalPatterns, s, st.engine))
              && !(st.urlEnabled && urls != [] && (st.blockAllUrls || |urls| > st.maxUrlsAllowed))
  {
    var a, b, c, d := LengthCheck(s, st), PatternCheck(s, st), UrlCheck(s, st), CharacterCheck(s, st);
    assert CriticalFailure(a) <==> |s| > st.maxChars || |Words(s)| > st.maxWords by {
      LengthCheckVerdict(s, st);
    }
    assert CriticalFailure(b) <==> st.patternsEnabled && AnyMatch(st.criticalPatterns, s, st.engine) by {
      PatternCheckVerdict(s, st);
    }
    assert CriticalFailure(c) <==> (var urls := FindAll(st.urlPattern, s, st.engine);
                                    st.urlEnabled && urls != [] && (st.blockAllUrls || |urls| > st.maxUrlsAllowed)) by {
      UrlCheckVerdict(s, st);
    }
    assert !CriticalFailure(d) by {
      CharacterCheckVerdict(s, st);
    }
    FourResults(a, b, c, d);
  }

  lemma FourResults(a: CheckResult, b: CheckResult, c: CheckResult, d: CheckResult)
    ensures NoCriticalFailure([a, b, c, d]) <==>
              !CriticalFailure(a) && !CriticalFailure(b) && !CriticalFailure(c) && !CriticalFailure(d)
  {
    var rs := [a, b, c, d];
    assert rs[0] == a && rs[1] == b && rs[2] == c && rs[3] == d;
  }

  /** Sanitisation with every step on leaves empty text empty. */
  lemma EmptyTextSanitized(st: SecuritySettings, table: CategoryTable)
    requires st.sanitizationEnabled && st.removeControlChars && st.stripInvisibleChars
    requires st.normalizeWhitespace && st.maxConsecutiveNewlines != 0
    ensures Sanitized([], st, table) == ([], [])
  {
    CleanTextIsFixed([], st, table);
  }

  /** Empty text is safe whenever sanitisation is fully on, the maxima are
      not negative and the patterns are built in (as under the default
      settings): it is only too short (`EmptyTextIsTooShort`), which warns. */
  lemma EmptyTextIsSafe(st: SecuritySettings, table: CategoryTable)
    requires st.sanitizationEnabled && st.removeControlChars && st.stripInvisibleChars
    requires st.normalizeWhitespace && st.maxConsecutiveNewlines != 0
    requires st.maxChars >= 0 && st.maxWords >= 0
    requires !st.urlPattern.Configured?
    requires forall i :: 0 <= i < |st.criticalPatterns| ==> !st.criticalPatterns[i].Configured?
    ensures Safe([], st, table)
  {
    EmptyTextSanitized(st, table);
    assert FindAll(st.urlPattern, [], st.engine) == [];
    forall i | 0 <= i < |st.criticalPatterns|
      ensures FindAll(st.criticalPatterns[i], [], st.engine) == []
    {
    }
    ResultsSafeIff([], st);
  }

  /** Printable ASCII text without spaces is left alone by a sanitiser with
      every step on. */
  lemma PrintableTextIsClean(t: string, st: SecuritySettings, table: CategoryTable)
    requires st.sanitizationEnabled && st.removeControlChars && st.stripInvisibleChars
    requires st.normalizeWhitespace && st.maxConsecutiveNewlines != 0
    requires forall c :: c in t ==> '!' <= c <= '~'
    ensures Sanitized(t, st, table) == (t, [])
  {
    forall i | 0 <= i < |t|
      ensures KeptByBothSteps(t[i], table) && !IsSpace(t[i]) && t[i] != '\n'
    {
      assert t[i] in t;
    }
    MissingChar(t, Repeat('\n', st.maxConsecutiveNewlines + 1), 0);
    CleanTextIsFixed(t, st, table);
  }

  /** ASCII text with no upper-case letter folds to itself. */
  lemma FoldsToItself(t: string)
    requires forall c :: c in t ==> c <= '~' && !('A' <= c <= 'Z')
    ensures FoldsTo(t, 0, t)
  {
    forall k | 0 <= k < |t|
      ensures RegexFold(t[k]) == t[k]
    {
      assert t[k] in t;
    }
  }

  /** The built-in `javascript:` matcher finds the scheme. */
  lemma JavascriptSchemeMatches(engine: Engine)
    ensures FindAll(JavascriptScheme, "javascript:", engine) != []
  {
    var t := "javascript:";
    assert forall c :: c in t ==> c <= '~' && !('A' <= c <= 'Z');
    FoldsToItself(t);
    assert MatchAt(JavascriptScheme, t, 0) == Some(11);
  }

  /** With the pattern check on and the `javascript:` expression among the
      critical patterns (as under the default settings), a `javascript:`
      scheme makes the text unsafe. */
  lemma JavascriptSchemeIsUnsafe(st: SecuritySettings, table: CategoryTable)
    requires st.sanitizationEnabled && st.removeControlChars && st.stripInvisibleChars
    requires st.normalizeWhitespace && st.maxConsecutiveNewlines != 0
    requires st.patternsEnabled && JavascriptScheme in st.criticalPatterns
    ensures !Safe("javascript:", st, table)
  {
    var t := "javascript:";
    assert forall c :: c in t ==> '!' <= c <= '~';
    PrintableTextIsClean(t, st, table);
    JavascriptSchemeMatches(st.engine);
    var i :| 0 <= i < |st.criticalPatterns| && st.criticalPatterns[i] == JavascriptScheme;
    assert AnyMatch(st.criticalPatterns, t, st.engine);
    ResultsSafeIff(t, st);
  }
}
