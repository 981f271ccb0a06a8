/** The four rule checks of the security pipeline. Each returns a
    `SecurityCheckResult`: whether the text passed, a severity, the check's
    name, a message and the offending strings. */
module Checks {
  import opened Text
  import opened Config
  import opened Patterns
  import opened Settings

  datatype Severity = Info | Warning | Critical

  datatype CheckResult = CheckResult(
    passed: bool,
    severity: Severity,
    checkName: string,
    details: string,
    blockedPatterns: seq<string>)

  /** A result with no offending strings (`blocked_patterns` defaults to
      the empty list). */
  function Plain(passed: bool, severity: Severity, name: string, details: string): CheckResult
  {
    CheckResult(passed, severity, name, details, [])
  }

  /** Python's `s[:n]`. */
  function Take(s: seq<string>, n: nat): (r: seq<string>)
    ensures |r| <= n && |r| <= |s| && r == s[..|r|]
    ensures |s| <= n ==> r == s
    ensures |s| > n ==> |r| == n
  {
    if |s| <= n then s else s[..n]
  }

  // ---------------------------------------------------------------------
  // MaliciousPatternDetector

  const PatternCheckName: string := "malicious_patterns"

  /** `blocked.extend(matches[:3])` over the patterns, in order. */
  function Hits(ps: seq<Pattern>, t: string, engine: Engine): seq<string>
  {
    if ps == [] then []
    else Hits(ps[..|ps| - 1], t, engine) + Take(FindAll(ps[|ps| - 1], t, engine), 3)
  }

  /** Some pattern of `ps` finds something in `t`. */
  predicate AnyMatch(ps: seq<Pattern>, t: string, engine: Engine)
  {
    exists i :: 0 <= i < |ps| && FindAll(ps[i], t, engine) != []
  }

  /** The examples collected are empty exactly when no pattern matches,
      and no pattern contributes more than three. */
  lemma {:induction false} HitsEmptyIff(ps: seq<Pattern>, t: string, engine: Engine)
    ensures Hits(ps, t, engine) == [] <==> !AnyMatch(ps, t, engine)
    ensures |Hits(ps, t, engine)| <= 3 * |ps|
    decreases |ps|
  {
    if ps != [] {
      var n := |ps| - 1;
      HitsEmptyIff(ps[..n], t, engine);
      AnyMatchStep(ps, t, engine);
      var m := FindAll(ps[n], t, engine);
      assert Take(m, 3) == [] <==> m == [];
    }
  }

  /** A list of patterns matches when its front does or its last one does. */
  lemma AnyMatchStep(ps: seq<Pattern>, t: string, engine: Engine)
    requires ps != []
    ensures AnyMatch(ps, t, engine) <==>
              AnyMatch(ps[..|ps| - 1], t, engine) || FindAll(ps[|ps| - 1], t, engine) != []
  {
    var init := ps[..|ps| - 1];
    assert forall i :: 0 <= i < |init| ==> ps[i] == init[i];
  }

  /** The collecting loop of `MaliciousPatternDetector.check`. */
  method CollectHits(ps: seq<Pattern>, t: string, engine: Engine) returns (found: seq<string>)
    ensures found == Hits(ps, t, engine)
  {
    found := [];
    for i := 0 to |ps|
      invariant found == Hits(ps[..i], t, engine)
    {
      var matches := FindAll(ps[i], t, engine);
      if matches != [] {
        found := found + Take(matches, 3);
      }
      assert ps[..i + 1][..i] == ps[..i];
    }
    assert ps[..|ps|] == ps;
  }

  /** What `MaliciousPatternDetector.check` returns. */
  function PatternCheck(t: string, st: SecuritySettings): CheckResult
  {
    if !st.patternsEnabled then Plain(true, Info, PatternCheckName, "Check disabled")
    else
      var blocked := Hits(st.criticalPatterns, t, st.engine);
      if blocked != [] then
        CheckResult(false, Critical, PatternCheckName,
                    "Detected " + NatToString(|blocked|) + " malicious pattern(s)", blocked)
      else
        var suspicious := Hits(st.suspiciousPatterns, t, st.engine);
        if suspicious != [] then
          CheckResult(true, Warning, PatternCheckName,
                      "Detected " + NatToString(|suspicious|) + " suspicious pattern(s)", suspicious)
        else Plain(true, Info, PatternCheckName, "No malicious patterns detected")
  }

  /** `MaliciousPatternDetector.check`. */
  method CheckPatterns(t: string, st: SecuritySettings) returns (r: CheckResult)
    ensures r == PatternCheck(t, st)
  {
    if !st.patternsEnabled {
      return Plain(true, Info, PatternCheckName, "Check disabled");
    }
    var blocked := CollectHits(st.criticalPatterns, t, st.engine);
    if blocked != [] {
      return CheckResult(false, Critical, PatternCheckName,
                         "Detected " + NatToString(|blocked|) + " malicious pattern(s)", blocked);
    }
    var suspicious := CollectHits(st.suspiciousPatterns, t, st.engine);
    if suspicious != [] {
      return CheckResult(true, Warning, PatternCheckName,
                         "Detected " + NatToString(|suspicious|) + " suspicious pattern(s)", suspicious);
    }
    r := Plain(true, Info, PatternCheckName, "No malicious patterns detected");
  }

  /** The verdict of the pattern check: it fails, as CRITICAL, exactly when
      it is on and a critical pattern matches, listing at most three
      examples per pattern; it warns (and passes) when only suspicious
      patterns match; otherwise it passes with INFO. */
  lemma PatternCheckVerdict(t: string, st: SecuritySettings)
    ensures var r := PatternCheck(t, st);
            var critical := st.patternsEnabled && AnyMatch(st.criticalPatterns, t, st.engine);
            && (!r.passed <==> critical)
            && (r.severity == Critical <==> critical)
            && (critical ==> |r.blockedPatterns| <= 3 * |st.criticalPatterns|)
            && (r.severity == Warning <==>
                  st.patternsEnabled && !critical && AnyMatch(st.suspiciousPatterns, t, st.engine))
            && (!st.patternsEnabled ==> r == Plain(true, Info, PatternCheckName, "Check disabled"))
  {
    HitsEmptyIff(st.criticalPatterns, t, st.engine);
    HitsEmptyIff(st.suspiciousPatterns, t, st.engine);
  }

  // ---------------------------------------------------------------------
  // URLDetector

  const UrlCheckName: string := "url_detection"

  /** `domain.lower() in url.lower()`. */
  predicate MentionsDomain(url: string, domain: string)
  {
    Contains(Lower(url), Lower(domain))
  }

  predicate Suspicious(url: string, domains: seq<string>)
  {
    exists d :: d in domains && MentionsDomain(url, d)
  }

  /** The URLs that mention one of the domains, in order. */
  function SuspiciousUrls(urls: seq<string>, domains: seq<string>): (r: seq<string>)
    ensures forall u :: u in r <==> u in urls && Suspicious(u, domains)
    ensures |r| <= |urls|
  {
    if urls == [] then []
    else
      var init := SuspiciousUrls(urls[..|urls| - 1], domains);
      var last := urls[|urls| - 1];
      assert urls == urls[..|urls| - 1] + [last];
      if Suspicious(last, domains) then init + [last] else init
  }

  /** The inner loop: whether some domain is mentioned, stopping at the
      first one (`break`). */
  method MentionsAny(url: string, domains: seq<string>) returns (b: bool)
    ensures b <==> Suspicious(url, domains)
  {
    var lowered := Lower(url);
    for j := 0 to |domains|
      invariant forall k :: 0 <= k < j ==> !MentionsDomain(url, domains[k])
    {
      if Find(lowered, Lower(domains[j])) {
        assert domains[j] in domains;
        return true;
      }
    }
    return false;
  }

  /** The suspicious-domain loop of `URLDetector.check`. */
  method CollectSuspicious(urls: seq<string>, domains: seq<string>) returns (found: seq<string>)
    ensures found == SuspiciousUrls(urls, domains)
  {
    found := [];
    for i := 0 to |urls|
      invariant found == SuspiciousUrls(urls[..i], domains)
    {
      var hit := MentionsAny(urls[i], domains);
      assert urls[..i + 1][..i] == urls[..i];
      if hit {
        found := found + [urls[i]];
      }
    }
    assert urls[..|urls|] == urls;
  }

  /** What `URLDetector.check` returns. */
  function UrlCheck(t: string, st: SecuritySettings): CheckResult
  {
    if !st.urlEnabled then Plain(true, Info, UrlCheckName, "Check disabled")
    else
      var urls := FindAll(st.urlPattern, t, st.engine);
      if urls == [] then Plain(true, Info, UrlCheckName, "No URLs detected")
      else if st.blockAllUrls || |urls| > st.maxUrlsAllowed then
        CheckResult(false, Critical, UrlCheckName,
                    "Detected " + NatToString(|urls|) + " URL(s), policy allows " + IntToString(st.maxUrlsAllowed),
                    Take(urls, 5))
      else
        var suspicious := SuspiciousUrls(urls, st.suspiciousDomains);
        if suspicious != [] then
          CheckResult(false, Warning, UrlCheckName,
                      "Detected " + NatToString(|suspicious|) + " suspicious URL(s)", suspicious)
        else Plain(true, Info, UrlCheckName, "Detected " + NatToString(|urls|) + " allowed URL(s)")
  }

  /** `URLDetector.check`. */
  method CheckUrls(t: string, st: SecuritySettings) returns (r: CheckResult)
    ensures r == UrlCheck(t, st)
  {
    if !st.urlEnabled {
      return Plain(true, Info, UrlCheckName, "Check disabled");
    }
    var urls := FindAll(st.urlPattern, t, st.engine);
    if urls == [] {
      return Plain(true, Info, UrlCheckName, "No URLs detected");
    }
    var maxAllowed := st.maxUrlsAllowed;
    if st.blockAllUrls || |urls| > maxAllowed {
      return CheckResult(false, Critical, UrlCheckName,
                         "Detected " + NatToString(|urls|) + " URL(s), policy allows " + IntToString(maxAllowed),
                         Take(urls, 5));
    }
    var suspicious := CollectSuspicious(urls, st.suspiciousDomains);
    if suspicious != [] {
      return CheckResult(false, Warning, UrlCheckName,
                         "Detected " + NatToString(|suspicious|) + " suspicious URL(s)", suspicious);
    }
    r := Plain(true, Info, UrlCheckName, "Detected " + NatToString(|urls|) + " allowed URL(s)");
  }

  /** The verdict of the URL check: with no URL it passes with INFO; when
      URLs are blocked outright or exceed the allowance it fails as CRITICAL
      and lists at most five of them; otherwise it fails as WARNING exactly
      when some URL mentions a suspicious domain, listing those URLs. */
  lemma UrlCheckVerdict(t: string, st: SecuritySettings)
    ensures var r := UrlCheck(t, st);
            var urls := FindAll(st.urlPattern, t, st.engine);
            var tooMany := st.blockAllUrls || |urls| > st.maxUrlsAllowed;
            var flagged := exists u :: u in urls && Suspicious(u, st.suspiciousDomains);
            && (st.urlEnabled && urls == [] ==> r.passed && r.severity == Info)
            && (r.severity == Critical <==> st.urlEnabled && urls != [] && tooMany)
            && (r.severity == Critical ==> !r.passed && |r.blockedPatterns| <= 5 && r.blockedPatterns == urls[..|r.blockedPatterns|])
            && (r.severity == Warning <==> st.urlEnabled && urls != [] && !tooMany && flagged)
            && (r.severity == Warning ==> !r.passed && forall u :: u in r.blockedPatterns <==> u in urls && Suspicious(u, st.suspiciousDomains))
            && (r.passed <==> r.severity == Info)
  {
    var urls := FindAll(st.urlPattern, t, st.engine);
    var s := SuspiciousUrls(urls, st.suspiciousDomains);
    if s != [] {
      assert s[0] in s;
    }
    if exists u :: u in urls && Suspicious(u, st.suspiciousDomains) {
      var u :| u in urls && Suspicious(u, st.suspiciousDomains);
      assert u in s;
    }
  }

  /** With the default web-address expression, a bare short link is not
      counted as a URL, so the check passes with INFO. */
  lemma BareShortLinkPassesUrlCheck(st: SecuritySettings)
    requires st.urlEnabled && st.urlPattern == WebAddress
    ensures UrlCheck("bit.ly/x", st) == Plain(true, Info, UrlCheckName, "No URLs detected")
  {
    BareShortLinkIsNotAUrl();
  }

  // ---------------------------------------------------------------------
  // ContentLengthValidator

  const LengthCheckName: string := "content_length"

  /** What `ContentLengthValidator.check` returns. */
  function LengthCheck(t: string, st: SecuritySettings): CheckResult
  {
    var chars := |t|;
    var words := |Words(t)|;
    if chars > st.maxChars then
      Plain(false, Critical, LengthCheckName,
            "Content too long: " + NatToString(chars) + " chars (max " + IntToString(st.maxChars) + ")")
    else if words > st.maxWords then
      Plain(false, Critical, LengthCheckName,
            "Content too long: " + NatToString(words) + " words (max " + IntToString(st.maxWords) + ")")
    else if chars < st.minChars then
      Plain(false, Warning, LengthCheckName,
            "Content too short: " + NatToString(chars) + " chars (min " + IntToString(st.minChars) + ")")
    else if words < st.minWords then
      Plain(false, Warning, LengthCheckName,
            "Content too short: " + NatToString(words) + " words (min " + IntToString(st.minWords) + ")")
    else
      Plain(true, Info, LengthCheckName,
            "Content length acceptable: " + NatToString(chars) + " chars, " + NatToString(words) + " words")
  }

  /** The verdict of the length check: it fails as CRITICAL exactly when
      the text is over a maximum, fails as WARNING exactly when it is within
      both maxima but under a minimum, and passes with INFO otherwise. */
  lemma LengthCheckVerdict(t: string, st: SecuritySettings)
    ensures var r := LengthCheck(t, st);
            var chars := |t|;
            var words := |Words(t)|;
            var tooLong := chars > st.maxChars || words > st.maxWords;
            var tooShort := chars < st.minChars || words < st.minWords;
            && (r.severity == Critical <==> tooLong)
            && (r.severity == Warning <==> !tooLong && tooShort)
            && (r.passed <==> !tooLong && !tooShort)
            && (r.passed <==> r.severity == Info)
            && r.blockedPatterns == []
  {
  }

  /** Empty text is under every positive minimum. */
  lemma EmptyTextIsTooShort(st: SecuritySettings)
    requires 0 <= st.maxChars && 0 <= st.maxWords && 0 < st.minChars
    ensures LengthCheck([], st) == Plain(false, Warning, LengthCheckName,
              "Content too short: 0 chars (min " + IntToString(st.minChars) + ")")
  {
    assert NatToString(0) == "0";
  }

  // ---------------------------------------------------------------------
  // CharacterValidator

  const CharacterCheckName: string := "character_validation"

  /** A match of `(.)\1{n,}` at `i`: a character other than a line break
      followed by `n` copies of itself. */
  predicate RunAt(t: string, i: int, n: nat)
  {
    0 <= i && i + n < |t| && t[i] != '\n' && forall k :: i <= k <= i + n ==> t[k] == t[i]
  }

  /** `re.search(r'(.)\1{n,}', text)` succeeds. */
  predicate HasLongRun(t: string, n: nat)
  {
    exists i :: 0 <= i < |t| && RunAt(t, i, n)
  }

  /** The characters `_contains_homoglyphs` looks for: Cyrillic a, e, o,
      p, c, x and Greek A, B, O. */
  const Homoglyphs: seq<char> :=
    ['\U{0430}', '\U{0435}', '\U{043E}', '\U{0440}', '\U{0441}', '\U{0445}',
     '\U{0391}', '\U{0392}', '\U{039F}']

  /** `_contains_homoglyphs`. */
  predicate HasHomoglyph(t: string)
  {
    exists c :: c in Homoglyphs && c in t
  }

  function RunIssue(n: nat): string
  {
    "Excessive consecutive characters (>" + NatToString(n) + ")"
  }

  const HomoglyphIssue: string := "Potential homoglyph characters detected"

  /** The issues the character check collects, in order. */
  function CharacterIssues(t: string, st: SecuritySettings): seq<string>
  {
    (if HasLongRun(t, st.maxConsecutiveSameChar) then [RunIssue(st.maxConsecutiveSameChar)] else [])
    + (if st.blockHomoglyphs && HasHomoglyph(t) then [HomoglyphIssue] else [])
  }

  /** What `CharacterValidator.check` returns. */
  function CharacterCheck(t: string, st: SecuritySettings): CheckResult
  {
    if !st.characterEnabled then Plain(true, Info, CharacterCheckName, "Check disabled")
    else
      var issues := CharacterIssues(t, st);
      if issues != [] then Plain(false, Warning, CharacterCheckName, Join(issues, "; "))
      else Plain(true, Info, CharacterCheckName, "Character validation passed")
  }

  /** The verdict of the character check: it never reports CRITICAL, and it
      fails (as WARNING) exactly when it is on and the text has a run of
      more than `max_consecutive_same_char` equal characters other than line
      breaks, or, when homoglyphs are blocked, one of the nine homoglyphs. */
  lemma CharacterCheckVerdict(t: string, st: SecuritySettings)
    ensures var r := CharacterCheck(t, st);
            && r.severity != Critical
            && (!r.passed <==>
                  st.characterEnabled &&
                  (HasLongRun(t, st.maxConsecutiveSameChar) || (st.blockHomoglyphs && HasHomoglyph(t))))
            && (!r.passed <==> r.severity == Warning)
  {
  }

  /** Both issues are reported, separated by `; `. */
  lemma BothCharacterIssues(t: string, st: SecuritySettings)
    requires st.characterEnabled && st.blockHomoglyphs
    requires HasLongRun(t, st.maxConsecutiveSameChar) && HasHomoglyph(t)
    ensures CharacterCheck(t, st).details ==
              RunIssue(st.maxConsecutiveSameChar) + "; " + HomoglyphIssue
  {
    var issues := CharacterIssues(t, st);
    assert issues == [RunIssue(st.maxConsecutiveSameChar), HomoglyphIssue];
    assert issues[1..] == [HomoglyphIssue];
    assert Join(issues[1..], "; ") == HomoglyphIssue;
  }

  /** Line breaks never form a long run, however many there are. */
  lemma LineBreaksAreNoRun(k: nat, n: nat)
    ensures !HasLongRun(Repeat('\n', k), n)
  {
  }

  /** A run long enough for a larger limit is long enough for a smaller one. */
  lemma LongRunMonotone(t: string, n: nat, m: nat)
    requires m <= n && HasLongRun(t, n)
    ensures HasLongRun(t, m)
  {
    var i :| 0 <= i < |t| && RunAt(t, i, n);
    assert RunAt(t, i, m);
  }

  /** `n + 1` copies of a character other than a line break trip the limit
      `n`; `n` copies do not. */
  lemma RunThreshold(c: char, n: nat)
    requires c != '\n'
    ensures HasLongRun(Repeat(c, n + 1), n)
    ensures !HasLongRun(Repeat(c, n), n)
  {
    assert RunAt(Repeat(c, n + 1), 0, n);
  }
}
