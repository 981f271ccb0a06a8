/** `ContentSanitizer`: the four ordered clean-up steps applied to untrusted
    text before any check looks at it. */
module Sanitizer {
  import opened Text
  import opened Settings

  /** For a code point from U+00A0 on: whether `unicodedata.category` puts
      it in one of the categories Cf, Cs, Co or Cn. */
  type CategoryTable = char -> bool

  /** `unicodedata.category(c).startswith('C')`. Below U+00A0 the
      category-C characters are exactly the C0 and C1 control characters. */
  predicate IsOtherCategory(c: char, table: CategoryTable)
  {
    c <= '\U{1F}' || ('\U{7F}' <= c <= '\U{9F}') || (c >= '\U{A0}' && table(c))
  }

  /** The characters `_remove_control_chars` keeps. */
  predicate KeptByControlStep(c: char, table: CategoryTable)
  {
    !IsOtherCategory(c, table) || c == '\n' || c == '\r' || c == '\t'
  }

  /** The zero-width and invisible characters `_remove_invisible_chars`
      deletes, in the order it deletes them. */
  const InvisibleChars: seq<char> :=
    ['\U{200B}', '\U{200C}', '\U{200D}', '\U{2060}', '\U{FEFF}', '\U{180E}']

  /** `_remove_control_chars`: the characters of `text` that are not
      category C, or are a newline, carriage return or tab, in order. */
  function RemoveControlChars(text: string, table: CategoryTable): (r: string)
    ensures |r| <= |text|
    ensures forall i :: 0 <= i < |r| ==> KeptByControlStep(r[i], table) && r[i] in text
  {
    if text == [] then []
    else (if KeptByControlStep(text[0], table) then [text[0]] else []) + RemoveControlChars(text[1..], table)
  }

  /** The characters of `text` not in `cs`, in order; `DropChars(text, [c])`
      is `text.replace(c, '')`. */
  function DropChars(text: string, cs: seq<char>): (r: string)
    ensures |r| <= |text|
  {
    if text == [] then []
    else (if text[0] in cs then [] else [text[0]]) + DropChars(text[1..], cs)
  }

  /** What `_remove_invisible_chars` computes. */
  function StripInvisible(text: string): string
  {
    DropChars(text, InvisibleChars)
  }

  /** The characters the first two steps together keep. */
  predicate KeptByBothSteps(c: char, table: CategoryTable)
  {
    KeptByControlStep(c, table) && c !in InvisibleChars
  }

  /** The reference for the first two steps: the characters of `text` that
      are kept by both, in order. */
  function KeptChars(text: string, table: CategoryTable): (r: string)
    ensures forall i :: 0 <= i < |r| ==> KeptByBothSteps(r[i], table)
  {
    if text == [] then []
    else (if KeptByBothSteps(text[0], table) then [text[0]] else []) + KeptChars(text[1..], table)
  }

  /** Deleting one more character after a set of them deletes the union. */
  lemma {:induction false} DropOneMore(text: string, cs: seq<char>, c: char)
    ensures DropChars(DropChars(text, cs), [c]) == DropChars(text, cs + [c])
  {
    if text != [] {
      DropOneMore(text[1..], cs, c);
      var head := if text[0] in cs then [] else [text[0]];
      DropAppend(head, DropChars(text[1..], cs), [c]);
    }
  }

  lemma {:induction false} DropAppend(a: string, b: string, cs: seq<char>)
    ensures DropChars(a + b, cs) == DropChars(a, cs) + DropChars(b, cs)
  {
    if a == [] {
      assert a + b == b;
    } else {
      DropAppend(a[1..], b, cs);
      DropAppendStep(a, b, cs);
    }
  }

  lemma DropAppendStep(a: string, b: string, cs: seq<char>)
    requires a != [] && DropChars(a[1..] + b, cs) == DropChars(a[1..], cs) + DropChars(b, cs)
    ensures DropChars(a + b, cs) == DropChars(a, cs) + DropChars(b, cs)
  {
    var h := if a[0] in cs then [] else [a[0]];
    var x, y := DropChars(a[1..], cs), DropChars(b, cs);
    assert (a + b)[0] == a[0];
    assert (a + b)[1..] == a[1..] + b;
    DropCons(a + b, cs);
    DropCons(a, cs);
    assert h + (x + y) == (h + x) + y;
  }

  lemma DropCons(x: string, cs: seq<char>)
    requires x != []
    ensures DropChars(x, cs) == (if x[0] in cs then [] else [x[0]]) + DropChars(x[1..], cs)
  {
  }

  lemma {:induction false} DropNothing(text: string, cs: seq<char>)
    requires forall i :: 0 <= i < |text| ==> text[i] !in cs
    ensures DropChars(text, cs) == text
  {
    if text != [] {
      DropNothing(text[1..], cs);
    }
  }

  /** `_remove_invisible_chars`: `text.replace(ch, '')` for each invisible
      character in turn. */
  method RemoveInvisibleChars(text: string) returns (r: string)
    ensures r == StripInvisible(text)
  {
    r := text;
    DropNothing(text, []);
    for i := 0 to |InvisibleChars|
      invariant r == DropChars(text, InvisibleChars[..i])
    {
      var ch := InvisibleChars[i];
      DropOneMore(text, InvisibleChars[..i], ch);
      assert InvisibleChars[..i + 1] == InvisibleChars[..i] + [ch];
      r := DropChars(r, [ch]);
    }
    assert InvisibleChars[..|InvisibleChars|] == InvisibleChars;
  }

  /** The first two steps together keep, in order, exactly the characters
      that are not category C (except newline, carriage return and tab) and
      not invisible. */
  lemma {:induction false} ControlThenInvisible(text: string, table: CategoryTable)
    ensures StripInvisible(RemoveControlChars(text, table)) == KeptChars(text, table)
  {
    if text != [] {
      ControlThenInvisible(text[1..], table);
      var head := if KeptByControlStep(text[0], table) then [text[0]] else [];
      DropAppend(head, RemoveControlChars(text[1..], table), InvisibleChars);
    }
  }

  lemma {:induction false} RemoveControlCharsKeepsAll(text: string, table: CategoryTable)
    requires forall i :: 0 <= i < |text| ==> KeptByControlStep(text[i], table)
    ensures RemoveControlChars(text, table) == text
  {
    if text != [] {
      RemoveControlCharsKeepsAll(text[1..], table);
    }
  }

  // ---------------------------------------------------------------------
  // Whitespace normalisation

  predicate Blank(c: char)
  {
    c == ' ' || c == '\t'
  }

  predicate NoTab(s: string)
  {
    forall i :: 0 <= i < |s| ==> s[i] != '\t'
  }

  predicate NoDoubleSpace(s: string)
  {
    forall i :: 0 <= i < |s| - 1 ==> !(s[i] == ' ' && s[i + 1] == ' ')
  }

  /** Whitespace `rstrip` removes before a line break. */
  predicate TrailingBlank(c: char)
  {
    IsSpace(c) && c != '\n'
  }

  /** Two adjacent characters of normalised text: no double space, and no
      whitespace right before a line break. */
  predicate TidyPair(x: char, y: char)
  {
    !(x == ' ' && y == ' ') && (TrailingBlank(x) ==> y != '\n')
  }

  predicate TidyPairs(s: string)
  {
    forall i :: 0 <= i < |s| - 1 ==> TidyPair(s[i], s[i + 1])
  }

  /** The shape whitespace normalisation leaves: no tab, no double space,
      and no line (up to a line break or the end) ending in whitespace. */
  predicate Tidy(s: string)
  {
    NoTab(s) && TidyPairs(s) && (s != [] ==> !TrailingBlank(s[|s| - 1]))
  }

  /** `re.sub(r'[ \t]+', ' ', text)`: a blank followed by a blank is
      dropped, the last blank of a run becomes a space. */
  function CollapseBlanks(s: string): (r: string)
    ensures |r| <= |s|
    ensures NoTab(r) && NoDoubleSpace(r)
    ensures forall i :: 0 <= i < |r| ==> r[i] == ' ' || r[i] in s
    ensures s != [] ==> r != [] && r[0] == (if Blank(s[0]) then ' ' else s[0])
  {
    if s == [] then []
    else if Blank(s[0]) && |s| > 1 && Blank(s[1]) then CollapseBlanks(s[1..])
    else if Blank(s[0]) then [' '] + CollapseBlanks(s[1..])
    else [s[0]] + CollapseBlanks(s[1..])
  }

  lemma {:induction false} CollapseBlanksKeepsTidy(s: string)
    requires NoTab(s) && NoDoubleSpace(s)
    ensures CollapseBlanks(s) == s
  {
    if s != [] {
      CollapseBlanksKeepsTidy(s[1..]);
    }
  }

  /** `text.replace('\r\n', '\n')`. */
  function ReplaceCrlf(s: string): (r: string)
    ensures |r| <= |s|
    ensures forall i :: 0 <= i < |r| ==> r[i] in s
    ensures s != [] ==> r != [] && (r[0] == s[0] || (r[0] == '\n' && s[0] == '\r'))
    ensures NoTab(s) ==> NoTab(r)
    ensures NoDoubleSpace(s) ==> NoDoubleSpace(r)
  {
    if s == [] then []
    else if |s| >= 2 && s[0] == '\r' && s[1] == '\n' then ['\n'] + ReplaceCrlf(s[2..])
    else [s[0]] + ReplaceCrlf(s[1..])
  }

  lemma {:induction false} ReplaceCrlfWithoutCrlf(s: string)
    requires forall i :: 0 <= i < |s| - 1 ==> !(s[i] == '\r' && s[i + 1] == '\n')
    ensures ReplaceCrlf(s) == s
  {
    if s != [] {
      var t := s[1..];
      assert forall i :: 0 <= i < |t| ==> t[i] == s[i + 1];
      ReplaceCrlfWithoutCrlf(t);
      assert ReplaceCrlf(s) == [s[0]] + ReplaceCrlf(t);
    }
  }

  /** `[line.rstrip() for line in lines]`. */
  function RStripEach(lines: seq<string>): (r: seq<string>)
    ensures |r| == |lines|
  {
    if lines == [] then [] else [RStrip(lines[0])] + RStripEach(lines[1..])
  }

  /** Index of the first line break of `s`, or `|s|`. */
  function LineEnd(s: string): (k: nat)
    ensures k <= |s| && '\n' !in s[..k]
    ensures k < |s| ==> s[k] == '\n'
  {
    if s == [] || s[0] == '\n' then 0
    else
      var k := LineEnd(s[1..]);
      assert s[..k + 1] == [s[0]] + s[1..][..k];
      k + 1
  }

  /** Each line of `s` with its trailing whitespace removed, line by line. */
  function RStripLines(s: string): string
    decreases |s|
  {
    var k := LineEnd(s);
    if k == |s| then RStrip(s) else RStrip(s[..k]) + "\n" + RStripLines(s[k + 1..])
  }

  /** `RStripLines` is `'\n'.join(line.rstrip() for line in text.split('\n'))`. */
  lemma {:induction false} RStripLinesIsSplitJoin(s: string)
    ensures RStripLines(s) == Join(RStripEach(Split(s, "\n")), "\n")
    decreases |s|
  {
    var k := LineEnd(s);
    if k == |s| {
      assert s[..k] == s;
      RStripLinesOneLine(s);
    } else {
      var a, b := s[..k], s[k + 1..];
      assert s == a + ['\n'] + b;
      RStripLinesFirstLine(a, b);
      RStripLinesIsSplitJoin(b);
    }
  }

  lemma RStripLinesOneLine(s: string)
    requires '\n' !in s
    ensures Join(RStripEach(Split(s, "\n")), "\n") == RStrip(s)
  {
    assert "\n" == ['\n'];
    SplitWithoutSeparator(s, '\n');
    assert RStripEach([s]) == [RStrip(s)];
  }

  lemma RStripLinesFirstLine(a: string, b: string)
    requires '\n' !in a
    ensures Join(RStripEach(Split(a + ['\n'] + b, "\n")), "\n")
            == RStrip(a) + "\n" + Join(RStripEach(Split(b, "\n")), "\n")
  {
    assert "\n" == ['\n'];
    SplitAtFirstSeparator(a, '\n', b);
    var rest := Split(b, "\n");
    RStripEachCons(a, rest);
    JoinCons(RStrip(a), RStripEach(rest), "\n");
  }

  lemma RStripEachCons(line: string, lines: seq<string>)
    ensures RStripEach([line] + lines) == [RStrip(line)] + RStripEach(lines)
  {
    assert ([line] + lines)[1..] == lines;
  }

  lemma JoinCons(part: string, parts: seq<string>, sep: string)
    requires parts != []
    ensures Join([part] + parts, sep) == part + sep + Join(parts, sep)
  {
    assert ([part] + parts)[1..] == parts;
  }

  lemma TidyPairsAppend(a: string, b: string)
    requires TidyPairs(a) && TidyPairs(b)
    requires a != [] && b != [] ==> TidyPair(a[|a| - 1], b[0])
    ensures TidyPairs(a + b)
  {
    var s := a + b;
    forall i | 0 <= i < |s| - 1
      ensures TidyPair(s[i], s[i + 1])
    {
      if i + 1 < |a| {
        assert s[i] == a[i] && s[i + 1] == a[i + 1];
      } else if i >= |a| {
        assert s[i] == b[i - |a|] && s[i + 1] == b[i - |a| + 1];
      }
    }
  }

  /** A line after `rstrip` is tidy when the text it came from had no tab
      and no double space. */
  lemma RStripLineTidy(line: string)
    requires '\n' !in line && NoTab(line) && NoDoubleSpace(line)
    ensures Tidy(RStrip(line))
  {
    var r := RStrip(line);
    forall i | 0 <= i < |r| - 1
      ensures TidyPair(r[i], r[i + 1])
    {
      assert r[i] == line[i] && r[i + 1] == line[i + 1];
    }
  }

  /** Stripping every line leaves a tidy text, never longer, made of
      characters of the input. */
  lemma RStripLinesTidy(s: string)
    requires NoTab(s) && NoDoubleSpace(s)
    ensures var r := RStripLines(s);
            Tidy(r) && |r| <= |s| && CharsOf(r, s)
  {
    RStripLinesShape(s);
    RStripLinesChars(s);
  }

  lemma {:induction false} RStripLinesShape(s: string)
    requires NoTab(s) && NoDoubleSpace(s)
    ensures Tidy(RStripLines(s)) && |RStripLines(s)| <= |s|
    decreases |s|
  {
    var k := LineEnd(s);
    SliceClean(s, 0, k);
    if k == |s| {
      assert s[0..k] == s;
      RStripLineTidy(s);
    } else {
      SliceClean(s, k + 1, |s|);
      assert s[k + 1..|s|] == s[k + 1..];
      RStripLinesShape(s[k + 1..]);
      LineShape(s, k);
    }
  }

  /** A slice of text without tabs or double spaces has none either. */
  lemma SliceClean(s: string, a: nat, b: nat)
    requires a <= b <= |s| && NoTab(s) && NoDoubleSpace(s)
    ensures NoTab(s[a..b]) && NoDoubleSpace(s[a..b])
  {
    var t := s[a..b];
    assert forall i :: 0 <= i < |t| ==> t[i] == s[a + i];
  }

  lemma LineShape(s: string, k: nat)
    requires k == LineEnd(s) < |s|
    requires NoTab(s[0..k]) && NoDoubleSpace(s[0..k])
    requires Tidy(RStripLines(s[k + 1..])) && |RStripLines(s[k + 1..])| <= |s[k + 1..]|
    ensures Tidy(RStripLines(s)) && |RStripLines(s)| <= |s|
  {
    var line := RStrip(s[..k]);
    var rest := RStripLines(s[k + 1..]);
    assert s[0..k] == s[..k];
    RStripLineTidy(s[..k]);
    LineBreakTidy(line);
    TidyAppend(line + "\n", rest);
    assert RStripLines(s) == line + "\n" + rest;
  }

  /** A tidy line followed by a line break is tidy. */
  lemma LineBreakTidy(line: string)
    requires Tidy(line)
    ensures Tidy(line + "\n")
  {
    var a := line + "\n";
    TidyPairsAppend(line, "\n");
    assert forall i :: 0 <= i < |line| ==> a[i] == line[i];
  }

  lemma {:induction false} RStripLinesChars(s: string)
    ensures CharsOf(RStripLines(s), s)
    decreases |s|
  {
    var k := LineEnd(s);
    if k == |s| {
      LastLineChars(s);
    } else {
      RStripLinesChars(s[k + 1..]);
      LineChars(s, k);
    }
  }

  /** Every character of `r` is a character of `s`. */
  predicate CharsOf(r: string, s: string)
  {
    forall i :: 0 <= i < |r| ==> r[i] in s
  }

  lemma LastLineChars(s: string)
    requires LineEnd(s) == |s|
    ensures CharsOf(RStripLines(s), s)
  {
    var r := RStrip(s);
    assert forall i :: 0 <= i < |r| ==> r[i] == s[i];
  }

  lemma LineChars(s: string, k: nat)
    requires k == LineEnd(s) < |s|
    requires CharsOf(RStripLines(s[k + 1..]), s[k + 1..])
    ensures CharsOf(RStripLines(s), s)
  {
    PiecesChars(s, k, RStrip(s[..k]), RStripLines(s[k + 1..]));
  }

  /** A prefix of the line before `s[k]`, the line break, and characters of
      what follows it are all characters of `s`. */
  lemma PiecesChars(s: string, k: nat, line: string, rest: string)
    requires k < |s| && s[k] == '\n' && |line| <= k && line == s[..k][..|line|]
    requires CharsOf(rest, s[k + 1..])
    ensures CharsOf(line + "\n" + rest, s)
  {
    var r := line + "\n" + rest;
    forall i | 0 <= i < |r|
      ensures r[i] in s
    {
      if i < |line| {
        assert r[i] == s[i];
      } else if i == |line| {
        assert r[i] == s[k];
      } else {
        assert r[i] == rest[i - |line| - 1];
        var j :| 0 <= j < |s[k + 1..]| && s[k + 1..][j] == r[i];
        assert s[k + 1 + j] == r[i];
      }
    }
  }

  /** Text without a line ending in whitespace is left alone. */
  lemma {:induction false} RStripLinesKeepsTidy(s: string)
    requires Tidy(s)
    ensures RStripLines(s) == s
    decreases |s|
  {
    var k := LineEnd(s);
    if k == |s| {
      StripKeepsEnd(s);
    } else {
      TidySuffix(s, k + 1);
      RStripLinesKeepsTidy(s[k + 1..]);
      TidyLineKept(s, k);
      LinesKept(s, k);
    }
  }

  /** A text whose first line and remaining lines are kept is kept. */
  lemma LinesKept(s: string, k: nat)
    requires k == LineEnd(s) < |s|
    requires RStrip(s[..k]) == s[..k] && RStripLines(s[k + 1..]) == s[k + 1..]
    ensures RStripLines(s) == s
  {
    RStripLinesUnfold(s, k);
    LineRejoined(s, k);
  }

  lemma RStripLinesUnfold(s: string, k: nat)
    requires k == LineEnd(s) < |s|
    ensures RStripLines(s) == RStrip(s[..k]) + "\n" + RStripLines(s[k + 1..])
  {
  }

  lemma LineRejoined(s: string, k: nat)
    requires k < |s| && s[k] == '\n'
    ensures s == s[..k] + "\n" + s[k + 1..]
  {
  }

  /** In tidy text, the line before a line break keeps its last character. */
  lemma TidyLineKept(s: string, k: nat)
    requires Tidy(s) && k == LineEnd(s) < |s|
    ensures RStrip(s[..k]) == s[..k]
  {
    if k > 0 {
      assert TidyPair(s[k - 1], s[k]);
      assert s[..k][k - 1] == s[k - 1];
    }
    StripKeepsEnd(s[..k]);
  }

  /** `rstrip` leaves a text alone when its last character is not
      whitespace. */
  lemma StripKeepsEnd(s: string)
    requires s != [] ==> !IsSpace(s[|s| - 1])
    ensures RStrip(s) == s
  {
  }

  /** `_normalize_whitespace`. */
  function NormalizeWhitespace(s: string): string
  {
    RStripLines(ReplaceCrlf(CollapseBlanks(s)))
  }

  /** After normalisation there is no tab, no two adjacent spaces, no
      "\r\n" and no line ending in whitespace; the text is never longer and
      every character is one of the input's or a space. */
  lemma NormalizeWhitespaceShape(s: string)
    ensures var r := NormalizeWhitespace(s);
            && |r| <= |s|
            && (forall i :: 0 <= i < |r| ==> r[i] != '\t')
            && (forall i :: 0 <= i < |r| - 1 ==> !(r[i] == ' ' && r[i + 1] == ' '))
            && (forall i :: 0 <= i < |r| - 1 ==> !(r[i] == '\r' && r[i + 1] == '\n'))
            && (forall i :: 0 <= i < |r| && TrailingBlank(r[i]) ==> i + 1 < |r| && r[i + 1] != '\n')
            && (forall i :: 0 <= i < |r| ==> r[i] == ' ' || r[i] in s)
  {
    var c := CollapseBlanks(s);
    var d := ReplaceCrlf(c);
    RStripLinesTidy(d);
    var r := RStripLines(d);
    TidyShape(r);
    CharsChain(r, d, c, s);
  }

  /** What tidiness says character by character. */
  lemma TidyShape(r: string)
    requires Tidy(r)
    ensures forall i :: 0 <= i < |r| - 1 ==> !(r[i] == '\r' && r[i + 1] == '\n')
    ensures forall i :: 0 <= i < |r| - 1 ==> !(r[i] == ' ' && r[i + 1] == ' ')
    ensures forall i :: 0 <= i < |r| && TrailingBlank(r[i]) ==> i + 1 < |r| && r[i + 1] != '\n'
  {
    forall i | 0 <= i < |r| - 1
      ensures !(r[i] == '\r' && r[i + 1] == '\n') && !(r[i] == ' ' && r[i + 1] == ' ')
    {
      assert TidyPair(r[i], r[i + 1]);
    }
    forall i | 0 <= i < |r| && TrailingBlank(r[i])
      ensures i + 1 < |r| && r[i + 1] != '\n'
    {
      if i + 1 < |r| { assert TidyPair(r[i], r[i + 1]); }
    }
  }

  lemma CharsChain(r: string, d: string, c: string, s: string)
    requires CharsOf(r, d) && CharsOf(d, c)
    requires forall i :: 0 <= i < |c| ==> c[i] == ' ' || c[i] in s
    ensures forall i :: 0 <= i < |r| ==> r[i] == ' ' || r[i] in s
  {
    forall i | 0 <= i < |r|
      ensures r[i] == ' ' || r[i] in s
    {
      assert r[i] in d;
      var j :| 0 <= j < |d| && d[j] == r[i];
      assert d[j] in c;
    }
  }

  lemma NormalizeWhitespaceTidy(s: string)
    ensures Tidy(NormalizeWhitespace(s))
  {
    RStripLinesTidy(ReplaceCrlf(CollapseBlanks(s)));
  }

  /** Normalisation leaves tidy text alone. */
  lemma NormalizeWhitespaceKeepsTidy(s: string)
    requires Tidy(s)
    ensures NormalizeWhitespace(s) == s
  {
    assert NoDoubleSpace(s) by {
      forall i | 0 <= i < |s| - 1
        ensures !(s[i] == ' ' && s[i + 1] == ' ')
      {
        assert TidyPair(s[i], s[i + 1]);
      }
    }
    CollapseBlanksKeepsTidy(s);
    assert forall i :: 0 <= i < |s| - 1 ==> !(s[i] == '\r' && s[i + 1] == '\n') by {
      forall i | 0 <= i < |s| - 1
        ensures !(s[i] == '\r' && s[i + 1] == '\n')
      {
        assert TidyPair(s[i], s[i + 1]);
      }
    }
    ReplaceCrlfWithoutCrlf(s);
    RStripLinesKeepsTidy(s);
  }

  // ---------------------------------------------------------------------
  // Newline cap

  /** Length of the run of line breaks `s` starts with. */
  function NewlineRun(s: string): (k: nat)
    ensures k <= |s| && forall i :: 0 <= i < k ==> s[i] == '\n'
    ensures k < |s| ==> s[k] != '\n'
  {
    if s == [] || s[0] != '\n' then 0 else 1 + NewlineRun(s[1..])
  }

  /** `re.sub(r'\n{n+1,}', '\n' * n, s)`: every run of more than `n` line
      breaks is cut down to `n`. */
  function CapNewlines(s: string, n: nat): (r: string)
    requires n >= 1
    ensures |r| <= |s|
    ensures s != [] ==> r != [] && r[0] == s[0]
    decreases |s|
  {
    if s == [] then []
    else if s[0] != '\n' then [s[0]] + CapNewlines(s[1..], n)
    else
      var k := NewlineRun(s);
      (if k > n then Repeat('\n', n) else s[..k]) + CapNewlines(s[k..], n)
  }

  lemma OccursShift(a: string, b: string, sub: string, i: int)
    requires i >= |a|
    ensures OccursAt(a + b, sub, i) <==> OccursAt(b, sub, i - |a|)
  {
    if 0 <= i - |a| <= |b| - |sub| {
      assert (a + b)[i..i + |sub|] == b[i - |a|..i - |a| + |sub|];
    }
  }

  lemma OccursInSlice(s: string, a: nat, b: nat, sub: string, i: int)
    requires a <= b <= |s| && OccursAt(s[a..b], sub, i)
    ensures OccursAt(s, sub, a + i)
  {
    forall k | 0 <= k < |sub|
      ensures s[a + i + k] == sub[k]
    {
      assert s[a..b][i..i + |sub|][k] == s[a..b][i + k];
    }
    assert s[a + i..a + i + |sub|] == sub;
  }

  lemma NotContainedInSlice(s: string, a: nat, b: nat, sub: string)
    requires a <= b <= |s| && !Contains(s, sub)
    ensures !Contains(s[a..b], sub)
  {
    if Contains(s[a..b], sub) {
      var i :| 0 <= i <= |s[a..b]| && OccursAt(s[a..b], sub, i);
      OccursInSlice(s, a, b, sub, i);
    }
  }

  /** After the cap there is no run of `n + 1` line breaks. */
  lemma {:induction false} CapNewlinesBoundsRuns(s: string, n: nat)
    requires n >= 1
    ensures !Contains(CapNewlines(s, n), Repeat('\n', n + 1))
    decreases |s|
  {
    var run := Repeat('\n', n + 1);
    var r := CapNewlines(s, n);
    if s != [] {
      var piece, rest;
      if s[0] != '\n' {
        piece, rest := [s[0]], s[1..];
      } else {
        var k := NewlineRun(s);
        piece, rest := (if k > n then Repeat('\n', n) else s[..k]), s[k..];
      }
      CapNewlinesBoundsRuns(rest, n);
      var capped := CapNewlines(rest, n);
      assert r == piece + capped;
      forall i | 0 <= i <= |r|
        ensures !OccursAt(r, run, i)
      {
        if i >= |piece| {
          OccursShift(piece, capped, run, i);
        } else if i + |run| <= |r| {
          if s[0] != '\n' {
            assert r[i..i + |run|][0] != run[0];
          } else {
            assert capped[0] == rest[0];
            assert r[i..i + |run|][|piece| - i] != run[|piece| - i];
          }
        }
      }
    }
  }

  lemma ContainsAtStart(s: string, sub: string)
    requires |sub| <= |s| && s[..|sub|] == sub
    ensures Contains(s, sub)
  {
    assert OccursAt(s, sub, 0);
  }

  lemma NotContainedInSuffix(s: string, j: nat, sub: string)
    requires j <= |s| && !Contains(s, sub)
    ensures !Contains(s[j..], sub)
  {
    assert s[j..] == s[j..|s|];
    NotContainedInSlice(s, j, |s|, sub);
  }

  /** Without a run of `n + 1` line breaks the cap changes nothing. */
  lemma {:induction false} CapNewlinesKeepsShortRuns(s: string, n: nat)
    requires n >= 1 && !Contains(s, Repeat('\n', n + 1))
    ensures CapNewlines(s, n) == s
    decreases |s|
  {
    var run := Repeat('\n', n + 1);
    if s != [] {
      var k := if s[0] != '\n' then 1 else NewlineRun(s);
      NotContainedInSuffix(s, k, run);
      CapNewlinesKeepsShortRuns(s[k..], n);
      if s[0] == '\n' {
        ShortRunKept(s, n);
      }
      assert s == s[..k] + s[k..];
    }
  }

  /** A leading run of line breaks no longer than `n` is copied as it is. */
  lemma ShortRunKept(s: string, n: nat)
    requires n >= 1 && s != [] && s[0] == '\n' && !Contains(s, Repeat('\n', n + 1))
    ensures NewlineRun(s) <= n
    ensures CapNewlines(s, n) == s[..NewlineRun(s)] + CapNewlines(s[NewlineRun(s)..], n)
  {
    var k := NewlineRun(s);
    if k > n {
      ContainsAtStart(s, Repeat('\n', n + 1));
    }
  }

  lemma TidyAppend(a: string, b: string)
    requires NoTab(a) && TidyPairs(a) && Tidy(b)
    requires a != [] && b != [] ==> TidyPair(a[|a| - 1], b[0])
    requires b == [] ==> Tidy(a)
    ensures Tidy(a + b)
  {
    TidyPairsAppend(a, b);
    if b != [] {
      assert (a + b)[|a + b| - 1] == b[|b| - 1];
    } else {
      assert a + b == a;
    }
  }

  lemma TidySuffix(s: string, j: nat)
    requires j <= |s| && Tidy(s)
    ensures Tidy(s[j..])
  {
    var t := s[j..];
    forall i | 0 <= i < |t| - 1
      ensures TidyPair(t[i], t[i + 1])
    {
      assert t[i] == s[j + i] && t[i + 1] == s[j + i + 1];
    }
  }

  /** The cap keeps text tidy. */
  lemma {:induction false} CapNewlinesKeepsTidy(s: string, n: nat)
    requires n >= 1 && Tidy(s)
    ensures Tidy(CapNewlines(s, n))
    decreases |s|
  {
    if s != [] {
      var piece, rest;
      if s[0] != '\n' {
        piece, rest := [s[0]], s[1..];
        if rest != [] { assert TidyPair(s[0], s[1]); }
      } else {
        var k := NewlineRun(s);
        piece, rest := (if k > n then Repeat('\n', n) else s[..k]), s[k..];
        assert forall i :: 0 <= i < |piece| ==> piece[i] == '\n';
      }
      TidySuffix(s, |s| - |rest|);
      assert s[|s| - |rest|..] == rest;
      CapNewlinesKeepsTidy(rest, n);
      TidyAppend(piece, CapNewlines(rest, n));
    }
  }

  /** Every character the cap leaves was already there. */
  lemma {:induction false} CapNewlinesChars(s: string, n: nat)
    requires n >= 1
    ensures CharsOf(CapNewlines(s, n), s)
    decreases |s|
  {
    if s != [] {
      var k := if s[0] != '\n' then 1 else NewlineRun(s);
      CapNewlinesChars(s[k..], n);
      CapPieceChars(s, n, k);
    }
  }

  lemma CapPieceChars(s: string, n: nat, k: nat)
    requires n >= 1 && s != [] && k == (if s[0] != '\n' then 1 else NewlineRun(s))
    requires CharsOf(CapNewlines(s[k..], n), s[k..])
    ensures CharsOf(CapNewlines(s, n), s)
  {
    var piece := if s[0] != '\n' then [s[0]] else if k > n then Repeat('\n', n) else s[..k];
    assert CapNewlines(s, n) == piece + CapNewlines(s[k..], n);
    assert forall i :: 0 <= i < |piece| ==> piece[i] == s[0];
    AppendChars(piece, CapNewlines(s[k..], n), s, k);
  }

  /** Characters of `s`, then characters of a suffix of `s`. */
  lemma AppendChars(a: string, b: string, s: string, k: nat)
    requires k <= |s| && CharsOf(a, s) && CharsOf(b, s[k..])
    ensures CharsOf(a + b, s)
  {
    forall i | |a| <= i < |a + b|
      ensures (a + b)[i] in s
    {
      assert (a + b)[i] == b[i - |a|];
      var j :| 0 <= j < |s[k..]| && s[k..][j] == b[i - |a|];
      assert s[k + j] == b[i - |a|];
    }
  }

  // ---------------------------------------------------------------------
  // The whole sanitiser

  const ControlLabel: string := "Removed control characters"
  const InvisibleLabel: string := "Removed invisible characters"
  const WhitespaceLabel: string := "Normalized whitespace"

  function NewlineLabel(n: nat): string
  {
    "Limited consecutive newlines to " + NatToString(n)
  }

  /** One optional step: its result, and its label appended to the
      modifications when the step changed the length of the text. */
  function Step(enabled: bool, before: string, after: string, note: string, mods: seq<string>)
    : (string, seq<string>)
  {
    if !enabled then (before, mods)
    else (after, if |after| != |before| then mods + [note] else mods)
  }

  function ControlStep(st: SecuritySettings, table: CategoryTable, p: (string, seq<string>)): (string, seq<string>)
  {
    Step(st.removeControlChars, p.0, RemoveControlChars(p.0, table), ControlLabel, p.1)
  }

  function InvisibleStep(st: SecuritySettings, p: (string, seq<string>)): (string, seq<string>)
  {
    Step(st.stripInvisibleChars, p.0, StripInvisible(p.0), InvisibleLabel, p.1)
  }

  function WhitespaceStep(st: SecuritySettings, p: (string, seq<string>)): (string, seq<string>)
  {
    Step(st.normalizeWhitespace, p.0, NormalizeWhitespace(p.0), WhitespaceLabel, p.1)
  }

  /** The newline cap runs only when it is on and a long run is present. */
  function NewlineStep(st: SecuritySettings, p: (string, seq<string>)): (string, seq<string>)
  {
    var n := st.maxConsecutiveNewlines;
    if n != 0 && Contains(p.0, Repeat('\n', n + 1)) then (CapNewlines(p.0, n), p.1 + [NewlineLabel(n)])
    else p
  }

  /** The text and modifications after the four steps, before `strip`. */
  function Steps(text: string, st: SecuritySettings, table: CategoryTable): (string, seq<string>)
  {
    NewlineStep(st, WhitespaceStep(st, InvisibleStep(st, ControlStep(st, table, (text, [])))))
  }

  /** What `sanitize` returns: the sanitised text and the modifications. */
  function Sanitized(text: string, st: SecuritySettings, table: CategoryTable): (string, seq<string>)
  {
    if !st.sanitizationEnabled then (text, [])
    else
      var p := Steps(text, st, table);
      (Strip(p.0), p.1)
  }

  /** `ContentSanitizer.sanitize`. */
  method Sanitize(text: string, st: SecuritySettings, table: CategoryTable)
    returns (sanitized: string, modifications: seq<string>)
    ensures (sanitized, modifications) == Sanitized(text, st, table)
  {
    if !st.sanitizationEnabled {
      return text, [];
    }
    modifications := [];
    sanitized := text;
    ghost var p := ControlStep(st, table, (text, []));
    if st.removeControlChars {
      var originalLen := |sanitized|;
      sanitized := RemoveControlChars(sanitized, table);
      if |sanitized| != originalLen {
        modifications := modifications + [ControlLabel];
      }
    }
    assert (sanitized, modifications) == p;
    p := InvisibleStep(st, p);
    if st.stripInvisibleChars {
      var originalLen := |sanitized|;
      sanitized := RemoveInvisibleChars(sanitized);
      if |sanitized| != originalLen {
        modifications := modifications + [InvisibleLabel];
      }
    }
    assert (sanitized, modifications) == p;
    p := WhitespaceStep(st, p);
    if st.normalizeWhitespace {
      var originalLen := |sanitized|;
      sanitized := NormalizeWhitespace(sanitized);
      if |sanitized| != originalLen {
        modifications := modifications + [WhitespaceLabel];
      }
    }
    assert (sanitized, modifications) == p;
    sanitized, modifications := LimitNewlines(st, sanitized, modifications);
    sanitized := Strip(sanitized);
  }

  /** The newline step of `sanitize`. */
  method LimitNewlines(st: SecuritySettings, text: string, mods: seq<string>)
    returns (sanitized: string, modifications: seq<string>)
    ensures (sanitized, modifications) == NewlineStep(st, (text, mods))
  {
    sanitized, modifications := text, mods;
    var maxNewlines := st.maxConsecutiveNewlines;
    if maxNewlines != 0 {
      if Find(sanitized, Repeat('\n', maxNewlines + 1)) {
        sanitized := CapNewlines(sanitized, maxNewlines);
        modifications := modifications + [NewlineLabel(maxNewlines)];
      }
    }
  }

  /** No step makes the text longer. */
  lemma StepsShorten(text: string, st: SecuritySettings, table: CategoryTable)
    ensures |Steps(text, st, table).0| <= |text|
  {
    var p1 := ControlStep(st, table, (text, []));
    var p2 := InvisibleStep(st, p1);
    var p3 := WhitespaceStep(st, p2);
    NormalizeWhitespaceShape(p2.0);
    assert |p3.0| <= |text|;
  }

  /** The newline step leaves no run of more than `n` line breaks when the
      cap is on. */
  lemma NewlineStepBoundsRuns(st: SecuritySettings, p: (string, seq<string>))
    requires st.maxConsecutiveNewlines != 0
    ensures !Contains(NewlineStep(st, p).0, Repeat('\n', st.maxConsecutiveNewlines + 1))
  {
    if Contains(p.0, Repeat('\n', st.maxConsecutiveNewlines + 1)) {
      CapNewlinesBoundsRuns(p.0, st.maxConsecutiveNewlines);
    }
  }

  /** Stripping cannot create an occurrence. */
  lemma StripKeepsAbsence(s: string, sub: string)
    requires !Contains(s, sub)
    ensures !Contains(Strip(s), sub)
  {
    StripIsSlice(s);
    var x := |s| - |LStrip(s)|;
    NotContainedInSlice(s, x, x + |Strip(s)|, sub);
  }

  /** Sanitised text never grows, carries no leading or trailing
      whitespace, and, when the newline cap is on, holds no run of more than
      `max_consecutive_newlines` line breaks. */
  lemma SanitizedShape(text: string, st: SecuritySettings, table: CategoryTable)
    ensures var r := Sanitized(text, st, table).0;
            && |r| <= |text|
            && (st.sanitizationEnabled && r != [] ==> !IsSpace(r[0]) && !IsSpace(r[|r| - 1]))
            && (st.sanitizationEnabled && st.maxConsecutiveNewlines != 0 ==>
                  !Contains(r, Repeat('\n', st.maxConsecutiveNewlines + 1)))
  {
    if st.sanitizationEnabled {
      var s4 := Steps(text, st, table).0;
      assert Sanitized(text, st, table).0 == Strip(s4);
      StepsShorten(text, st, table);
      if st.maxConsecutiveNewlines != 0 {
        NewlineStepBoundsRuns(st, WhitespaceStep(st, InvisibleStep(st, ControlStep(st, table, (text, [])))));
        StripKeepsAbsence(s4, Repeat('\n', st.maxConsecutiveNewlines + 1));
      }
    }
  }

  /** Every character of `s` survives the first two steps. */
  predicate AllKept(s: string, table: CategoryTable)
  {
    forall i :: 0 <= i < |s| ==> KeptByBothSteps(s[i], table)
  }

  /** Whitespace normalisation of kept characters is tidy and still made
      of kept characters (the only character it adds is a space). */
  lemma NormalizeKeepsKept(s: string, table: CategoryTable)
    requires AllKept(s, table)
    ensures Tidy(NormalizeWhitespace(s)) && AllKept(NormalizeWhitespace(s), table)
  {
    NormalizeWhitespaceTidy(s);
    NormalizeWhitespaceShape(s);
    KeptWithSpaces(NormalizeWhitespace(s), s, table);
  }

  /** Kept characters and spaces are kept characters. */
  lemma KeptWithSpaces(r: string, s: string, table: CategoryTable)
    requires AllKept(s, table)
    requires forall i :: 0 <= i < |r| ==> r[i] == ' ' || r[i] in s
    ensures AllKept(r, table)
  {
    forall i | 0 <= i < |r|
      ensures KeptByBothSteps(r[i], table)
    {
      if r[i] != ' ' {
        var j :| 0 <= j < |s| && s[j] == r[i];
      }
    }
  }

  /** Capping newline runs keeps tidy text of kept characters so. */
  lemma CapKeepsKept(s: string, n: nat, table: CategoryTable)
    requires n >= 1 && Tidy(s) && AllKept(s, table)
    ensures Tidy(CapNewlines(s, n)) && AllKept(CapNewlines(s, n), table)
  {
    var r := CapNewlines(s, n);
    CapNewlinesKeepsTidy(s, n);
    CapNewlinesChars(s, n);
    forall i | 0 <= i < |r|
      ensures KeptByBothSteps(r[i], table)
    {
      var j :| 0 <= j < |s| && s[j] == r[i];
    }
  }

  /** A slice of text without tabs or untidy pairs has none either. */
  lemma SlicePairs(s: string, a: nat, b: nat)
    requires a <= b <= |s| && NoTab(s) && TidyPairs(s)
    ensures NoTab(s[a..b]) && TidyPairs(s[a..b])
  {
    var r := s[a..b];
    forall i | 0 <= i < |r| - 1
      ensures TidyPair(r[i], r[i + 1])
    {
      assert r[i] == s[a + i] && r[i + 1] == s[a + i + 1];
    }
    forall i | 0 <= i < |r|
      ensures r[i] != '\t'
    {
      assert r[i] == s[a + i];
    }
  }

  /** A slice of kept characters is made of kept characters. */
  lemma SliceKept(s: string, a: nat, b: nat, table: CategoryTable)
    requires a <= b <= |s| && AllKept(s, table)
    ensures AllKept(s[a..b], table)
  {
    var r := s[a..b];
    forall i | 0 <= i < |r|
      ensures KeptByBothSteps(r[i], table)
    {
      assert r[i] == s[a + i];
    }
  }

  /** Stripping keeps tidy text of kept characters so. */
  lemma StripKeepsKept(s: string, table: CategoryTable)
    requires Tidy(s) && AllKept(s, table)
    ensures Tidy(Strip(s)) && AllKept(Strip(s), table)
  {
    StripIsSlice(s);
    var x := |s| - |LStrip(s)|;
    var r := Strip(s);
    var y := x + |r|;
    assert r == s[x..y];
    SlicePairs(s, x, y);
    SliceKept(s, x, y, table);
    assert r != [] ==> !TrailingBlank(r[|r| - 1]);
  }

  /** The output of a sanitiser with every step on is a fixed point of the
      clean-up steps: tidy, made of kept characters, without long newline
      runs, and stripped. */
  lemma FullySanitizedShape(text: string, st: SecuritySettings, table: CategoryTable)
    requires st.sanitizationEnabled && st.removeControlChars && st.stripInvisibleChars
    requires st.normalizeWhitespace && st.maxConsecutiveNewlines != 0
    ensures var r := Sanitized(text, st, table).0;
            && Tidy(r) && AllKept(r, table)
            && !Contains(r, Repeat('\n', st.maxConsecutiveNewlines + 1))
            && (r != [] ==> !IsSpace(r[0]) && !IsSpace(r[|r| - 1]))
  {
    SanitizedShape(text, st, table);
    var p2 := InvisibleStep(st, ControlStep(st, table, (text, [])));
    ControlThenInvisible(text, table);
    assert p2.0 == KeptChars(text, table);
    NormalizeKeepsKept(p2.0, table);
    var p3 := WhitespaceStep(st, p2);
    var p4 := NewlineStep(st, p3);
    if p4.0 != p3.0 {
      CapKeepsKept(p3.0, st.maxConsecutiveNewlines, table);
    }
    StripKeepsKept(p4.0, table);
    assert Sanitized(text, st, table).0 == Strip(p4.0);
  }

  /** The first two steps leave text of kept characters alone. */
  lemma KeptIsFixed(r: string, table: CategoryTable)
    requires AllKept(r, table)
    ensures RemoveControlChars(r, table) == r && StripInvisible(r) == r
  {
    RemoveControlCharsKeepsAll(r, table);
    DropNothing(r, InvisibleChars);
  }

  /** Text that already has the shape of full sanitisation is returned
      unchanged, with no modification reported. */
  lemma CleanTextIsFixed(r: string, st: SecuritySettings, table: CategoryTable)
    requires st.sanitizationEnabled && st.removeControlChars && st.stripInvisibleChars
    requires st.normalizeWhitespace && st.maxConsecutiveNewlines != 0
    requires Tidy(r) && AllKept(r, table)
    requires !Contains(r, Repeat('\n', st.maxConsecutiveNewlines + 1))
    requires r != [] ==> !IsSpace(r[0]) && !IsSpace(r[|r| - 1])
    ensures Sanitized(r, st, table) == (r, [])
  {
    KeptIsFixed(r, table);
    var p1 := ControlStep(st, table, (r, []));
    assert p1 == (r, []);
    var p2 := InvisibleStep(st, p1);
    assert p2 == (r, []);
    NormalizeWhitespaceKeepsTidy(r);
    var p3 := WhitespaceStep(st, p2);
    assert p3 == (r, []);
    assert NewlineStep(st, p3) == (r, []);
    StripKeepsCleanText(r);
  }

  /** Sanitising sanitised text (every step on) changes nothing and
      reports no modification. */
  lemma SanitizeIsIdempotent(text: string, st: SecuritySettings, table: CategoryTable)
    requires st.sanitizationEnabled && st.removeControlChars && st.stripInvisibleChars
    requires st.normalizeWhitespace && st.maxConsecutiveNewlines != 0
    ensures var r := Sanitized(text, st, table).0;
            Sanitized(r, st, table) == (r, [])
  {
    FullySanitizedShape(text, st, table);
    CleanTextIsFixed(Sanitized(text, st, table).0, st, table);
  }
}
