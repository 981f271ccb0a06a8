/** `ResponseAnalyzer.analyze`: counting statistics of a generated text. */
module ResponseStats {
  import opened Text

  datatype ResponseStatistics = ResponseStatistics(
    charCount: nat,
    wordCount: nat,
    sentenceCount: nat,
    paragraphCount: nat,
    avgWordLength: real,
    avgSentenceLength: real,
    uniqueWordRatio: real,
    timestamp: string)

  predicate IsMark(c: char)
  {
    c == '.' || c == '!' || c == '?'
  }

  /** `len(re.findall(r'[.!?]+', text))`: the number of maximal runs of
      sentence marks, counted at the last mark of each run. */
  function MarkRuns(t: string): nat
  {
    if t == [] then 0
    else (if IsMark(t[0]) && (|t| == 1 || !IsMark(t[1])) then 1 else 0) + MarkRuns(t[1..])
  }

  /** A text has a run of sentence marks exactly when it has a mark, and it
      has no more runs than characters. */
  lemma {:induction false} MarkRunsCount(t: string)
    ensures MarkRuns(t) == 0 <==> forall i :: 0 <= i < |t| ==> !IsMark(t[i])
    ensures MarkRuns(t) <= |t|
  {
    if t != [] {
      MarkRunsCount(t[1..]);
      if forall i :: 0 <= i < |t[1..]| ==> !IsMark(t[1..][i]) {
        assert forall i :: 1 <= i < |t| ==> t[i] == t[1..][i - 1];
      } else {
        var i :| 0 <= i < |t[1..]| && IsMark(t[1..][i]);
        assert t[i + 1] == t[1..][i];
      }
    }
  }

  /** `[p.strip() for p in parts if p.strip()]`. */
  function NonBlankStripped(parts: seq<string>): (r: seq<string>)
    ensures |r| <= |parts|
    ensures forall k :: 0 <= k < |r| ==> r[k] != []
  {
    if parts == [] then []
    else (if Strip(parts[0]) != [] then [Strip(parts[0])] else []) + NonBlankStripped(parts[1..])
  }

  /** Blank pieces give no paragraph. */
  lemma {:induction false} BlankParagraphs(parts: seq<string>)
    requires forall k :: 0 <= k < |parts| ==> forall c :: c in parts[k] ==> IsSpace(c)
    ensures NonBlankStripped(parts) == []
  {
    if parts != [] {
      BlankParagraphs(parts[1..]);
      var p := parts[0];
      forall i | 0 <= i < |p|
        ensures IsSpace(p[i])
      {
        assert p[i] in p;
      }
      StripEmptyIffBlank(p);
    }
  }

  /** The paragraphs of a text: its stripped, non-blank `\n\n`-separated
      blocks. */
  function Paragraphs(t: string): seq<string>
  {
    NonBlankStripped(Split(t, "\n\n"))
  }

  /** The total length of the words. */
  function TotalLength(words: seq<string>): nat
  {
    if words == [] then 0 else |words[0]| + TotalLength(words[1..])
  }

  /** `set(w.lower() for w in words)`. */
  function LowerSet(words: seq<string>): set<string>
  {
    if words == [] then {} else {Lower(words[0])} + LowerSet(words[1..])
  }

  lemma {:induction false} TotalLengthOfWords(words: seq<string>)
    requires forall k :: 0 <= k < |words| ==> words[k] != []
    ensures TotalLength(words) >= |words|
  {
    if words != [] {
      TotalLengthOfWords(words[1..]);
    }
  }

  /** There are no more distinct lower-cased words than words, and at
      least one when there is a word. */
  lemma {:induction false} LowerSetSize(words: seq<string>)
    ensures |LowerSet(words)| <= |words|
    ensures words != [] ==> |LowerSet(words)| >= 1
  {
    if words != [] {
      LowerSetSize(words[1..]);
      assert Lower(words[0]) in LowerSet(words);
    }
  }

  lemma QuotientAtMostOne(a: nat, n: nat)
    requires 1 <= a <= n
    ensures 0.0 < a as real / n as real <= 1.0
  {
    var q := a as real / n as real;
    assert q * n as real == a as real;
  }

  lemma QuotientAtLeastOne(a: nat, n: nat)
    requires 1 <= n <= a
    ensures a as real / n as real >= 1.0
  {
    var q := a as real / n as real;
    assert q * n as real == a as real;
  }

  lemma QuotientNonNegative(a: nat, n: nat)
    requires 1 <= n
    ensures a as real / n as real >= 0.0
  {
    var q := a as real / n as real;
    assert q * n as real == a as real;
  }

  function Max(a: nat, b: nat): nat
  {
    if a >= b then a else b
  }

  /** `ResponseAnalyzer.analyze(text)`; `now` is the UTC timestamp. */
  function Analyze(text: string, now: string): ResponseStatistics
  {
    var words := Words(text);
    var wordCount := |words|;
    var sentences := Max(MarkRuns(text), 1);
    var paragraphs := Max(|Paragraphs(text)|, 1);
    var avgWordLength := if words != [] then TotalLength(words) as real / wordCount as real else 0.0;
    var uniqueRatio := if words != [] then |LowerSet(words)| as real / wordCount as real else 0.0;
    ResponseStatistics(|text|, wordCount, sentences, paragraphs, avgWordLength,
                       wordCount as real / sentences as real, uniqueRatio, now)
  }

  /** The statistics count characters and whitespace-separated words; the
      sentence and paragraph counts are at least one; with no words the
      averages are zero, and otherwise every word has at least one
      character and the ratio of distinct words lies in (0, 1]. */
  lemma AnalyzeBounds(text: string, now: string)
    ensures var s := Analyze(text, now);
            && s.charCount == |text|
            && s.wordCount == |Words(text)|
            && s.sentenceCount >= 1 && s.sentenceCount >= MarkRuns(text)
            && s.paragraphCount >= 1 && s.paragraphCount >= |Paragraphs(text)|
            && (s.wordCount == 0 ==> s.avgWordLength == 0.0 && s.uniqueWordRatio == 0.0)
            && (s.wordCount > 0 ==> s.avgWordLength >= 1.0 && 0.0 < s.uniqueWordRatio <= 1.0)
            && s.avgSentenceLength >= 0.0
  {
    var words := Words(text);
    QuotientNonNegative(|words|, Max(MarkRuns(text), 1));
    if words != [] {
      TotalLengthOfWords(words);
      LowerSetSize(words);
      QuotientAtMostOne(|LowerSet(words)|, |words|);
      QuotientAtLeastOne(TotalLength(words), |words|);
    }
  }

  /** A text without sentence marks still counts one sentence; blank text
      has one paragraph and no words. */
  lemma BlankTextStatistics(text: string, now: string)
    requires forall i :: 0 <= i < |text| ==> IsSpace(text[i])
    ensures var s := Analyze(text, now);
            s.wordCount == 0 && s.sentenceCount == 1 && s.paragraphCount == 1 && s.avgSentenceLength == 0.0
  {
    WordsOfBlank(text);
    MarkRunsCount(text);
    forall i | 0 <= i < |text|
      ensures !IsMark(text[i])
    {
      assert IsSpace(text[i]);
    }
    SplitPiecesFromText(text, "\n\n");
    var parts := Split(text, "\n\n");
    forall k | 0 <= k < |parts|
      ensures forall c :: c in parts[k] ==> IsSpace(c)
    {
      forall c | c in parts[k]
        ensures IsSpace(c)
      {
        var j :| 0 <= j < |text| && text[j] == c;
      }
    }
    BlankParagraphs(parts);
  }
}
