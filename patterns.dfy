/** The regular expressions of the security configuration. The four
    expressions the default configuration relies on are matched by
    hand-written matchers that follow the backtracking and the Unicode case
    folding of Python's `re` module on `str` patterns; any other configured
    source is handed to an abstract engine. */
module Patterns {
  import opened Text
  import opened Config

  /** `findall(source, text)` of an arbitrary regular expression, with the
      IGNORECASE flag given by the last argument. */
  type Engine = (string, string, bool) -> seq<string>

  datatype Pattern =
    | ScriptTag          // (?i)<script[^>]*>
    | JavascriptScheme   // (?i)javascript:
    | EventHandler       // (?i)on(?:load|error|click|mouse|key)\s*=
    | WebAddress         // (?:https?://|www\.)\S+ compiled with IGNORECASE
    | Configured(source: string, ignoreCase: bool)

  /** `re.compile(source, flags)`: the known sources get their matcher. The
      first three carry an inline `(?i)`, so the flag does not matter. */
  function Compile(source: string, ignoreCase: bool): (p: Pattern)
    ensures p == ScriptTag <==> source == ScriptTagSource
    ensures p == JavascriptScheme <==> source == JavascriptSchemeSource
    ensures p == EventHandler <==> source == EventHandlerSource
    ensures p == WebAddress <==> source == WebAddressSource && ignoreCase
    ensures p.Configured? <==>
              source !in {ScriptTagSource, JavascriptSchemeSource, EventHandlerSource}
              && !(source == WebAddressSource && ignoreCase)
    ensures p.Configured? ==> p == Configured(source, ignoreCase)
  {
    if source == ScriptTagSource then ScriptTag
    else if source == JavascriptSchemeSource then JavascriptScheme
    else if source == EventHandlerSource then EventHandler
    else if source == WebAddressSource && ignoreCase then WebAddress
    else Configured(source, ignoreCase)
  }

  /** The lower-case ASCII letter a character matches under IGNORECASE, or
      the character itself. Besides `A`-`Z`, `re` folds the dotted capital I
      and the Kelvin sign by their lower-case mapping, and treats the dotless
      i and the long s as equivalent to `i` and `s`. */
  function RegexFold(c: char): (r: char)
    ensures 'a' <= r <= 'z' && r != c ==>
              'A' <= c <= 'Z' || (r == 'i' && (c == '\U{0130}' || c == '\U{0131}'))
              || (r == 's' && c == '\U{017F}') || (r == 'k' && c == '\U{212A}')
    ensures !('a' <= r <= 'z') ==> r == c
  {
    if 'A' <= c <= 'Z' then (c as int + 32) as char
    else if c == '\U{0130}' || c == '\U{0131}' then 'i'
    else if c == '\U{017F}' then 's'
    else if c == '\U{212A}' then 'k'
    else c
  }

  /** `lit` (lower-case ASCII and punctuation) matches at `i` under
      IGNORECASE. */
  predicate FoldsTo(t: string, i: nat, lit: string)
  {
    i + |lit| <= |t| && forall k :: 0 <= k < |lit| ==> RegexFold(t[i + k]) == lit[k]
  }

  /** The first index at or after `from` holding `c`. */
  function IndexOf(t: string, c: char, from: nat): (r: Option<nat>)
    requires from <= |t|
    ensures r.Some? ==> from <= r.value < |t| && t[r.value] == c
    ensures forall j :: from <= j < |t| && (r.None? || j < r.value) ==> t[j] != c
    decreases |t| - from
  {
    if from == |t| then None
    else if t[from] == c then Some(from)
    else IndexOf(t, c, from + 1)
  }

  /** The first index at or after `from` that is not whitespace (`\s*`). */
  function SkipSpace(t: string, from: nat): (r: nat)
    requires from <= |t|
    ensures from <= r <= |t|
    ensures forall j :: from <= j < r ==> IsSpace(t[j])
    ensures r < |t| ==> !IsSpace(t[r])
    decreases |t| - from
  {
    if from == |t| || !IsSpace(t[from]) then from else SkipSpace(t, from + 1)
  }

  /** The alternatives of the event-handler expression, in order. */
  const HandlerNames: seq<string> := ["load", "error", "click", "mouse", "key"]

  /** The first alternative that matches at `i`; they start with distinct
      letters, so at most one does. */
  function HandlerAt(t: string, i: nat): (r: Option<string>)
    ensures r.Some? ==> r.value in HandlerNames && FoldsTo(t, i, r.value)
    ensures r.None? ==> forall n :: n in HandlerNames ==> !FoldsTo(t, i, n)
  {
    if FoldsTo(t, i, "load") then Some("load")
    else if FoldsTo(t, i, "error") then Some("error")
    else if FoldsTo(t, i, "click") then Some("click")
    else if FoldsTo(t, i, "mouse") then Some("mouse")
    else if FoldsTo(t, i, "key") then Some("key")
    else None
  }

  /** Where a match of `https?://` or `www\.` starting at `i` ends. */
  function WebPrefixAt(t: string, i: nat): (r: nat)
    ensures r == 0 || r == 4 || r == 7 || r == 8
    ensures r > 0 ==> i + r <= |t|
    ensures r == 8 <==> FoldsTo(t, i, "https://")
    ensures r == 7 <==> FoldsTo(t, i, "http://") && !FoldsTo(t, i, "https://")
    ensures r == 4 <==> FoldsTo(t, i, "www.") && !FoldsTo(t, i, "https://") && !FoldsTo(t, i, "http://")
    ensures r == 0 <==> !FoldsTo(t, i, "https://") && !FoldsTo(t, i, "http://") && !FoldsTo(t, i, "www.")
  {
    if FoldsTo(t, i, "https://") then 8
    else if FoldsTo(t, i, "http://") then 7
    else if FoldsTo(t, i, "www.") then 4
    else 0
  }

  /** The end of the match of a built-in pattern starting at `i`, if any. */
  function MatchAt(p: Pattern, t: string, i: nat): (r: Option<nat>)
    requires !p.Configured? && i <= |t|
    ensures r.Some? ==> i < r.value <= |t|
  {
    match p
    case ScriptTag =>
      if FoldsTo(t, i, "<script") then
        match IndexOf(t, '>', i + 7)
        case Some(j) => Some(j + 1)
        case None => None
      else None
    case JavascriptScheme =>
      if FoldsTo(t, i, "javascript:") then Some(i + 11) else None
    case EventHandler =>
      if FoldsTo(t, i, "on") then
        match HandlerAt(t, i + 2)
        case Some(name) =>
          var m := SkipSpace(t, i + 2 + |name|);
          if m < |t| && t[m] == '=' then Some(m + 1) else None
        case None => None
      else None
    case WebAddress =>
      var k := WebPrefixAt(t, i);
      if k == 0 then None
      else
        var n := TokenLength(t[i + k..]);
        if n == 0 then None else Some(i + k + n)
  }

  /** `findall` of a built-in pattern from index `i` on: leftmost matches,
      each search resuming where the previous match ended. */
  function Scan(p: Pattern, t: string, i: nat): (ms: seq<string>)
    requires !p.Configured? && i <= |t|
    decreases |t| - i
  {
    if i == |t| then []
    else match MatchAt(p, t, i)
      case Some(j) => [t[i..j]] + Scan(p, t, j)
      case None => Scan(p, t, i + 1)
  }

  /** `pattern.findall(text)`. */
  function FindAll(p: Pattern, t: string, engine: Engine): seq<string>
  {
    if p.Configured? then engine(p.source, t, p.ignoreCase) else Scan(p, t, 0)
  }

  /** `pattern.search(text)` for a built-in pattern. */
  predicate Occurs(p: Pattern, t: string)
    requires !p.Configured?
  {
    exists k :: 0 <= k <= |t| && MatchAt(p, t, k).Some?
  }

  /** The scan finds nothing exactly when no position from `i` on starts a
      match. */
  lemma ScanEmptyIff(p: Pattern, t: string, i: nat)
    requires !p.Configured? && i <= |t|
    ensures Scan(p, t, i) == [] <==> forall k :: i <= k <= |t| ==> MatchAt(p, t, k).None?
  {
    if forall k :: i <= k <= |t| ==> MatchAt(p, t, k).None? {
      NoMatchScanEmpty(p, t, i);
    }
    if Scan(p, t, i) == [] {
      forall k | i <= k <= |t|
        ensures MatchAt(p, t, k).None?
      {
        ScanEmptyNoMatch(p, t, i, k);
      }
    }
  }

  lemma {:induction false} NoMatchScanEmpty(p: Pattern, t: string, i: nat)
    requires !p.Configured? && i <= |t|
    requires forall k :: i <= k <= |t| ==> MatchAt(p, t, k).None?
    ensures Scan(p, t, i) == []
    decreases |t| - i
  {
    if i < |t| {
      NoMatchScanEmpty(p, t, i + 1);
      ScanStep(p, t, i);
    }
  }

  lemma {:induction false} ScanEmptyNoMatch(p: Pattern, t: string, i: nat, k: nat)
    requires !p.Configured? && i <= k <= |t| && Scan(p, t, i) == []
    ensures MatchAt(p, t, k).None?
    decreases k - i
  {
    if i == k {
      if k < |t| { ScanStep(p, t, k); } else { NoMatchAtEnd(p, t); }
    } else {
      ScanStep(p, t, i);
      ScanEmptyNoMatch(p, t, i + 1, k);
    }
  }

  lemma NoMatchAtEnd(p: Pattern, t: string)
    requires !p.Configured?
    ensures MatchAt(p, t, |t|).None?
  {
    var r := MatchAt(p, t, |t|);
  }

  /** One position of the scan: it finds nothing from `i` exactly when
      nothing starts at `i` and it finds nothing from `i + 1`. */
  lemma ScanStep(p: Pattern, t: string, i: nat)
    requires !p.Configured? && i < |t|
    ensures Scan(p, t, i) == [] <==> MatchAt(p, t, i).None? && Scan(p, t, i + 1) == []
  {
    match MatchAt(p, t, i)
    case Some(j) => assert Scan(p, t, i) == [t[i..j]] + Scan(p, t, j);
    case None =>
  }

  /** `findall` of a built-in pattern is empty exactly when `search` fails. */
  lemma FindAllEmptyIff(p: Pattern, t: string, engine: Engine)
    requires !p.Configured?
    ensures FindAll(p, t, engine) == [] <==> !Occurs(p, t)
  {
    ScanEmptyIff(p, t, 0);
  }

  /** Every string the scan returns is a non-empty slice of the text that the
      pattern matches. */
  lemma {:induction false} ScanYieldsMatches(p: Pattern, t: string, i: nat)
    requires !p.Configured? && i <= |t|
    ensures forall m :: m in Scan(p, t, i) ==>
              exists a, b :: i <= a < b <= |t| && MatchAt(p, t, a) == Some(b) && m == t[a..b]
    decreases |t| - i
  {
    if i < |t| {
      match MatchAt(p, t, i)
      case Some(j) => ScanYieldsMatches(p, t, j);
      case None => ScanYieldsMatches(p, t, i + 1);
    }
  }

  /** Printable ASCII other than the space. */
  predicate Visible(c: char)
  {
    '!' <= c <= '~'
  }

  lemma VisibleNotSpace(c: char)
    requires Visible(c)
    ensures !IsSpace(c)
  {
  }

  /** A character that folds to printable ASCII is not whitespace. */
  lemma FoldNotSpace(c: char)
    requires Visible(RegexFold(c))
    ensures !IsSpace(c)
  {
    if Visible(c) {
      VisibleNotSpace(c);
    } else {
      assert c == '\U{0130}' || c == '\U{0131}' || c == '\U{017F}' || c == '\U{212A}';
    }
  }

  /** Characters that fold to printable ASCII are not whitespace. */
  lemma FoldedNoSpace(t: string, i: nat, lit: string)
    requires FoldsTo(t, i, lit) && forall k :: 0 <= k < |lit| ==> Visible(lit[k])
    ensures forall j :: i <= j < i + |lit| ==> !IsSpace(t[j])
  {
    forall j | i <= j < i + |lit|
      ensures !IsSpace(t[j])
    {
      assert RegexFold(t[i + (j - i)]) == lit[j - i];
      FoldNotSpace(t[j]);
    }
  }

  /** A web address match is `http://`, `https://` or `www.` (in any case)
      followed by at least one character, and runs over all non-whitespace
      characters up to the next whitespace or the end of the text. */
  lemma WebAddressMatch(t: string, i: nat)
    requires i <= |t|
    ensures var k := WebPrefixAt(t, i);
            MatchAt(WebAddress, t, i).Some? <==> k > 0 && i + k < |t| && !IsSpace(t[i + k])
    ensures MatchAt(WebAddress, t, i).Some? ==>
              var j := MatchAt(WebAddress, t, i).value;
              NoSpace(t[i..j]) && (j == |t| || IsSpace(t[j]))
  {
    var k := WebPrefixAt(t, i);
    if k > 0 {
      var n := TokenLength(t[i + k..]);
      TokenBounds(t, i + k);
      if n > 0 {
        WebPrefixNoSpace(t, i, k);
        NoSpaceSlice(t, i, i + k + n);
      }
    }
  }

  /** What `\S+` matches from `a`: non-whitespace up to whitespace or the
      end of the text, and something exactly when `t[a]` is not whitespace. */
  lemma TokenBounds(t: string, a: nat)
    requires a <= |t|
    ensures var n := TokenLength(t[a..]);
            && a + n <= |t|
            && (forall j :: a <= j < a + n ==> !IsSpace(t[j]))
            && (a + n < |t| ==> IsSpace(t[a + n]))
            && (n > 0 <==> a < |t| && !IsSpace(t[a]))
  {
    var u := t[a..];
    var n := TokenLength(u);
    forall j | a <= j < a + n
      ensures !IsSpace(t[j])
    {
      assert u[..n][j - a] == t[j];
    }
    if a + n < |t| { assert u[n] == t[a + n]; }
    if a < |t| { assert u[0] == t[a]; }
  }

  /** The scheme or `www.` prefix holds no whitespace. */
  lemma WebPrefixNoSpace(t: string, i: nat, k: nat)
    requires k == WebPrefixAt(t, i) > 0
    ensures forall j :: i <= j < i + k ==> !IsSpace(t[j])
  {
    if k == 8 {
      FoldedNoSpace(t, i, "https://");
    } else if k == 7 {
      FoldedNoSpace(t, i, "http://");
    } else {
      FoldedNoSpace(t, i, "www.");
    }
  }

  lemma NoSpaceSlice(t: string, a: nat, b: nat)
    requires a <= b <= |t| && forall j :: a <= j < b ==> !IsSpace(t[j])
    ensures NoSpace(t[a..b])
  {
    assert forall x :: 0 <= x < b - a ==> t[a..b][x] == t[a + x];
  }

  /** The event-handler expression does not match `onmouseover=`: after
      `mouse` it expects optional whitespace and `=`. */
  lemma OnMouseOverIsNotMatched()
    ensures Scan(EventHandler, "onmouseover=", 0) == []
  {
    var t := "onmouseover=";
    forall k | 0 <= k <= |t|
      ensures MatchAt(EventHandler, t, k).None?
    {
      if k == 0 { MouseOverLacksEquals(); } else { NoOnAfterStart(k); }
    }
    NoMatchScanEmpty(EventHandler, t, 0);
  }

  /** At the start, `on` and `mouse` match but `\s*=` does not. */
  lemma MouseOverLacksEquals()
    ensures MatchAt(EventHandler, "onmouseover=", 0).None?
  {
    var t := "onmouseover=";
    assert RegexFold(t[2]) != "load"[0] && RegexFold(t[2]) != "error"[0];
    assert RegexFold(t[2]) != "click"[0];
    assert FoldsTo(t, 2, "mouse");
    assert SkipSpace(t, 7) == 7;
  }

  /** No later position starts with `on`. */
  lemma NoOnAfterStart(k: nat)
    requires 1 <= k <= 12
    ensures MatchAt(EventHandler, "onmouseover=", k).None?
  {
    var t := "onmouseover=";
    if k < |t| - 1 {
      assert k == 1 || k == 2 || k == 3 || k == 4 || k == 5 || k == 6 || k == 7 || k == 8 || k == 9 || k == 10;
      assert !(RegexFold(t[k]) == "on"[0] && RegexFold(t[k + 1]) == "on"[1]);
    }
  }

  /** Under IGNORECASE `re` lets the long s stand for `s`: `<\U{017F}cript>`
      is a script tag. */
  lemma LongSScriptTag()
    ensures MatchAt(ScriptTag, "<\U{017F}cript>", 0) == Some(8)
  {
    var a := "<\U{017F}cript>";
    assert FoldsTo(a, 0, "<script");
    assert IndexOf(a, '>', 7) == Some(7);
  }

  /** The dotless and the dotted capital i stand for `i`: both spellings
      are a `javascript:` scheme. */
  lemma LookAlikeIScheme()
    ensures MatchAt(JavascriptScheme, "javascr\U{0131}pt:", 0) == Some(11)
    ensures MatchAt(JavascriptScheme, "javascr\U{0130}pt:", 0) == Some(11)
  {
    assert FoldsTo("javascr\U{0131}pt:", 0, "javascript:");
    assert FoldsTo("javascr\U{0130}pt:", 0, "javascript:");
  }

  /** The Kelvin sign stands for `k`: `on\U{212A}ey=` is an event handler. */
  lemma KelvinHandler()
    ensures MatchAt(EventHandler, "on\U{212A}ey=", 0) == Some(6)
  {
    var h := "on\U{212A}ey=";
    assert FoldsTo(h, 0, "on");
    assert RegexFold(h[2]) != "load"[0] && RegexFold(h[2]) != "error"[0];
    assert RegexFold(h[2]) != "click"[0] && RegexFold(h[2]) != "mouse"[0];
    assert FoldsTo(h, 2, "key");
    assert SkipSpace(h, 5) == 5;
  }

  /** The long s stands for `s` in the scheme: `http\U{017F}://x` is a URL. */
  lemma LongSWebAddress()
    ensures MatchAt(WebAddress, "http\U{017F}://x", 0) == Some(9)
  {
    var u := "http\U{017F}://x";
    assert FoldsTo(u, 0, "https://");
    TokenBounds(u, 8);
  }

  /** The default web-address expression needs a scheme or `www.`: a bare
      short link is not a URL to it. */
  lemma BareShortLinkIsNotAUrl()
    ensures Scan(WebAddress, "bit.ly/x", 0) == []
  {
    var t := "bit.ly/x";
    forall k | 0 <= k <= |t|
      ensures MatchAt(WebAddress, t, k).None?
    {
      if k < |t| {
        assert k == 0 || k == 1 || k == 2 || k == 3 || k == 4 || k == 5 || k == 6 || k == 7;
        assert RegexFold(t[k]) != "http://"[0] && RegexFold(t[k]) != "www."[0];
      }
    }
    ScanEmptyIff(WebAddress, t, 0);
  }
}
