/** The email formatter: HTML escaping, reflection paragraphs, the HTML
    and plain-text bodies, the subject line and the content check. */
module Email {
  import opened Text
  import opened ResponseStats

  // ---------------------------------------------------------------------
  // Escaping

  /** `html.escape` of one character (with `quote=True`). */
  function EscapeChar(c: char): string
  {
    if c == '&' then "&amp;"
    else if c == '<' then "&lt;"
    else if c == '>' then "&gt;"
    else if c == '"' then "&quot;"
    else if c == '\'' then "&#x27;"
    else [c]
  }

  /** The characters `html.escape` never leaves in its output. */
  predicate Markup(c: char)
  {
    c == '<' || c == '>' || c == '"' || c == '\''
  }

  /** `html.escape(s)`: no markup character survives. */
  function Escape(s: string): (r: string)
    ensures forall c :: c in r ==> !Markup(c)
    ensures |r| >= |s|
  {
    if s == [] then [] else EscapeChar(s[0]) + Escape(s[1..])
  }

  /** Decoding of the five entities `Escape` produces. */
  function Unescape(t: string): string
  {
    if t == [] then []
    else if t[0] != '&' then [t[0]] + Unescape(t[1..])
    else if |t| >= 5 && t[..5] == "&amp;" then "&" + Unescape(t[5..])
    else if |t| >= 4 && t[..4] == "&lt;" then "<" + Unescape(t[4..])
    else if |t| >= 4 && t[..4] == "&gt;" then ">" + Unescape(t[4..])
    else if |t| >= 6 && t[..6] == "&quot;" then "\"" + Unescape(t[6..])
    else if |t| >= 6 && t[..6] == "&#x27;" then "'" + Unescape(t[6..])
    else [t[0]] + Unescape(t[1..])
  }

  lemma UnescapeAmp(rest: string)
    ensures Unescape("&amp;" + rest) == "&" + Unescape(rest)
  {
    var t := "&amp;" + rest;
    assert t[..5] == "&amp;" && t[5..] == rest;
  }

  lemma UnescapeLt(rest: string)
    ensures Unescape("&lt;" + rest) == "<" + Unescape(rest)
  {
    var t := "&lt;" + rest;
    assert t[1] == 'l';
    assert t[..4] == "&lt;" && t[4..] == rest;
  }

  lemma UnescapeGt(rest: string)
    ensures Unescape("&gt;" + rest) == ">" + Unescape(rest)
  {
    var t := "&gt;" + rest;
    assert t[1] == 'g';
    assert t[..4] == "&gt;" && t[4..] == rest;
  }

  lemma UnescapeQuot(rest: string)
    ensures Unescape("&quot;" + rest) == "\"" + Unescape(rest)
  {
    var t := "&quot;" + rest;
    assert t[1] == 'q';
    assert t[..6] == "&quot;" && t[6..] == rest;
  }

  lemma UnescapeApos(rest: string)
    ensures Unescape("&#x27;" + rest) == "'" + Unescape(rest)
  {
    var t := "&#x27;" + rest;
    assert t[1] == '#';
    assert t[..6] == "&#x27;" && t[6..] == rest;
  }

  lemma UnescapePlain(c: char, rest: string)
    requires c != '&'
    ensures Unescape([c] + rest) == [c] + Unescape(rest)
  {
    var t := [c] + rest;
    assert t[0] == c && t[1..] == rest;
  }

  lemma UnescapeStep(c: char, rest: string)
    ensures Unescape(EscapeChar(c) + rest) == [c] + Unescape(rest)
  {
    if c == '&' {
      UnescapeAmp(rest);
    } else if c == '<' {
      UnescapeLt(rest);
    } else if c == '>' {
      UnescapeGt(rest);
    } else if c == '"' {
      UnescapeQuot(rest);
    } else if c == '\'' {
      UnescapeApos(rest);
    } else {
      UnescapePlain(c, rest);
    }
  }

  /** Escaping loses nothing: the escaped text decodes to the original. */
  lemma {:induction false} EscapeRoundTrip(s: string)
    ensures Unescape(Escape(s)) == s
  {
    if s != [] {
      EscapeRoundTrip(s[1..]);
      UnescapeStep(s[0], Escape(s[1..]));
      assert [s[0]] + s[1..] == s;
    }
  }

  // ---------------------------------------------------------------------
  // Paragraphs

  /** `' '.join(para.split())`. */
  function Collapse(p: string): string
  {
    Join(Words(p), " ")
  }

  /** Words joined by single spaces: whitespace occurs only as single
      spaces between two other characters. */
  predicate SingleSpaced(s: string)
  {
    forall i :: 0 <= i < |s| && IsSpace(s[i]) ==>
      s[i] == ' ' && 0 < i < |s| - 1 && !IsSpace(s[i - 1]) && !IsSpace(s[i + 1])
  }

  lemma {:induction false} JoinWords(ws: seq<string>)
    requires forall k :: 0 <= k < |ws| ==> ws[k] != [] && NoSpace(ws[k])
    ensures SingleSpaced(Join(ws, " "))
    ensures Join(ws, " ") == [] <==> ws == []
    ensures ws != [] ==> !IsSpace(Join(ws, " ")[0]) && !IsSpace(Join(ws, " ")[|Join(ws, " ")| - 1])
  {
    if |ws| > 1 {
      JoinWords(ws[1..]);
      var w, rest := ws[0], Join(ws[1..], " ");
      var s := w + " " + rest;
      assert Join(ws, " ") == s;
      assert NoSpace(w);
      forall j | 0 <= j < |w|
        ensures !IsSpace(s[j])
      {
        assert s[j] == w[j];
      }
      assert s[|w| + 1] == rest[0];
      forall i | 0 <= i < |s| && IsSpace(s[i])
        ensures s[i] == ' ' && 0 < i < |s| - 1 && !IsSpace(s[i - 1]) && !IsSpace(s[i + 1])
      {
        if i == |w| {
          assert s[i - 1] == w[|w| - 1];
        } else {
          assert s[i] == rest[i - |w| - 1];
          assert s[i - 1] == rest[i - |w| - 2];
          assert s[i + 1] == rest[i - |w|];
        }
      }
      assert s[0] == w[0];
      assert s[|s| - 1] == rest[|rest| - 1];
    } else if |ws| == 1 {
      var w := ws[0];
      assert Join(ws, " ") == w;
      assert NoSpace(w);
    }
  }

  /** A collapsed paragraph is empty exactly when the paragraph is blank,
      and otherwise single-spaced with no whitespace at either end. */
  lemma CollapseShape(p: string)
    ensures Collapse(p) == [] <==> forall i :: 0 <= i < |p| ==> IsSpace(p[i])
    ensures SingleSpaced(Collapse(p))
  {
    JoinWords(Words(p));
    if forall i :: 0 <= i < |p| ==> IsSpace(p[i]) {
      WordsOfBlank(p);
    } else {
      var i :| 0 <= i < |p| && !IsSpace(p[i]);
      WordsEmptyOnlyIfBlank(p, i);
    }
  }

  /** The cleaned, non-empty paragraphs, in order. */
  function ParagraphTexts(blocks: seq<string>): (ps: seq<string>)
    ensures |ps| <= |blocks|
    ensures forall k :: 0 <= k < |ps| ==> ps[k] != [] && SingleSpaced(ps[k])
  {
    if blocks == [] then []
    else
      var c := Collapse(blocks[0]);
      CollapseShape(blocks[0]);
      (if c != [] then [c] else []) + ParagraphTexts(blocks[1..])
  }

  /** One `<p>` element. */
  function Item(text: string): string
  {
    "<p>" + Escape(text) + "</p>"
  }

  function ParagraphItems(reflection: string): (items: seq<string>)
  {
    var ps := ParagraphTexts(Split(reflection, "\n\n"));
    seq(|ps|, i requires 0 <= i < |ps| => Item(ps[i]))
  }

  const ParagraphSeparator: string := "\n            "

  /** `format_reflection_paragraphs(reflection)`. */
  function FormatReflectionParagraphs(reflection: string): string
  {
    Join(ParagraphItems(reflection), ParagraphSeparator)
  }

  /** The blocks that yield a paragraph element are the blocks the response
      analyzer counts as paragraphs. */
  lemma {:induction false} SameParagraphs(blocks: seq<string>)
    ensures |ParagraphTexts(blocks)| == |NonBlankStripped(blocks)|
  {
    if blocks != [] {
      SameParagraphs(blocks[1..]);
      CollapseShape(blocks[0]);
      StripEmptyIffBlank(blocks[0]);
    }
  }

  /** The HTML shows one paragraph element per paragraph of the
      reflection, each holding its escaped, single-spaced text. */
  lemma ParagraphElements(reflection: string)
    ensures |ParagraphItems(reflection)| == |Paragraphs(reflection)|
    ensures var ps := ParagraphTexts(Split(reflection, "\n\n"));
            forall k :: 0 <= k < |ps| ==>
              ParagraphItems(reflection)[k] == "<p>" + Escape(ps[k]) + "</p>"
              && Unescape(Escape(ps[k])) == ps[k] && ps[k] != [] && SingleSpaced(ps[k])
  {
    SameParagraphs(Split(reflection, "\n\n"));
    var ps := ParagraphTexts(Split(reflection, "\n\n"));
    forall k | 0 <= k < |ps|
      ensures Unescape(Escape(ps[k])) == ps[k]
    {
      EscapeRoundTrip(ps[k]);
    }
  }

  // ---------------------------------------------------------------------
  // Counting tags

  /** The number of `<` characters, each of which opens a tag. */
  function CountLt(s: string): nat
  {
    if s == [] then 0 else (if s[0] == '<' then 1 else 0) + CountLt(s[1..])
  }

  lemma {:induction false} CountLtConcat(a: string, b: string)
    ensures CountLt(a + b) == CountLt(a) + CountLt(b)
  {
    if a != [] {
      CountLtConcat(a[1..], b);
      assert (a + b)[0] == a[0] && (a + b)[1..] == a[1..] + b;
    } else {
      assert a + b == b;
    }
  }

  lemma {:induction false} CountLtAbsent(s: string)
    requires '<' !in s
    ensures CountLt(s) == 0
  {
    if s != [] {
      assert '<' !in s[1..] by {
        forall j | 0 <= j < |s| - 1
          ensures s[1..][j] != '<'
        {
          assert s[1..][j] == s[j + 1];
        }
      }
      CountLtAbsent(s[1..]);
    }
  }

  lemma EscapedHasNoTags(s: string)
    ensures CountLt(Escape(s)) == 0
  {
    assert Markup('<');
    CountLtAbsent(Escape(s));
  }

  lemma ItemTags(text: string)
    ensures CountLt(Item(text)) == 2
  {
    CountLtConcat("<p>" + Escape(text), "</p>");
    CountLtConcat("<p>", Escape(text));
    EscapedHasNoTags(text);
    assert CountLt("<p>") == 1;
    assert CountLt("</p>") == 1;
  }

  lemma {:induction false} JoinItemTags(texts: seq<string>)
    ensures CountLt(Join(seq(|texts|, i requires 0 <= i < |texts| => Item(texts[i])), ParagraphSeparator))
            == 2 * |texts|
  {
    var items := seq(|texts|, i requires 0 <= i < |texts| => Item(texts[i]));
    if |texts| == 1 {
      ItemTags(texts[0]);
    } else if |texts| > 1 {
      JoinItemTags(texts[1..]);
      var rest := seq(|texts[1..]|, i requires 0 <= i < |texts[1..]| => Item(texts[1..][i]));
      assert items == [items[0]] + rest;
      ItemTags(texts[0]);
      JoinTags(items[0], rest);
    }
  }

  /** The paragraph separator adds no `<` to a join. */
  lemma JoinTags(first: string, rest: seq<string>)
    requires rest != []
    ensures CountLt(Join([first] + rest, ParagraphSeparator)) ==
              CountLt(first) + CountLt(Join(rest, ParagraphSeparator))
  {
    assert ([first] + rest)[1..] == rest;
    CountLtConcat(first + ParagraphSeparator, Join(rest, ParagraphSeparator));
    CountLtConcat(first, ParagraphSeparator);
    assert '<' !in ParagraphSeparator;
    CountLtAbsent(ParagraphSeparator);
  }

  /** The `<` of three pieces put together. */
  lemma ThreePartTags(a: string, b: string, c: string)
    ensures CountLt(a + b + c) == CountLt(a) + CountLt(b) + CountLt(c)
  {
    CountLtConcat(a + b, c);
    CountLtConcat(a, b);
  }

  /** The reflection contributes exactly two `<` per paragraph: its own
      text never opens a tag. */
  lemma ReflectionTags(reflection: string)
    ensures CountLt(FormatReflectionParagraphs(reflection)) == 2 * |Paragraphs(reflection)|
  {
    JoinItemTags(ParagraphTexts(Split(reflection, "\n\n")));
    ParagraphElements(reflection);
  }

  // ---------------------------------------------------------------------
  // HTML body

  const Head: string := @"<!DOCTYPE html>
<html lang=""en"">
<head>
    <meta charset=""UTF-8"">
    <meta name=""viewport"" content=""width=device-width, initial-scale=1.0"">
    <title>Daily Stoic Reflection</title>
    <style>
        body {
            font-family: Georgia, 'Times New Roman', serif;
            line-height: 1.6;
            color: #333;
            max-width: 600px;
            margin: 0 auto;
            padding: 20px;
            background-color: #f9f9f9;
        }
        .container {
            background-color: white;
            padding: 30px;
            border-radius: 8px;
            box-shadow: 0 2px 4px rgba(0,0,0,0.1);
        }
        .header {
            text-align: center;
            margin-bottom: 30px;
            border-bottom: 2px solid #2c3e50;
            padding-bottom: 20px;
        }
        .header h1 {
            margin: 0;
            color: #2c3e50;
            font-size: 28px;
        }
        .theme {
            color: #7f8c8d;
            font-style: italic;
            font-size: 14px;
            margin-top: 5px;
        }
        .quote {
            font-size: 18px;
            font-style: italic;
            color: #34495e;
            margin: 30px 0;
            padding: 20px;
            background-color: #ecf0f1;
            border-left: 4px solid #3498db;
        }
        .attribution {
            text-align: right;
            color: #7f8c8d;
            font-size: 14px;
            margin-top: 10px;
        }
        .reflection {
            margin-top: 30px;
            font-size: 16px;
            text-align: justify;
        }
        .reflection p {
            margin-bottom: 15px;
        }
        .journaling-prompt {
            margin-top: 30px;
            padding: 20px;
            background-color: #fff3cd;
            border-left: 4px solid #ffc107;
            border-radius: 4px;
        }
        .journaling-prompt h3 {
            margin: 0 0 10px 0;
            color: #856404;
            font-size: 16px;
        }
        .journaling-prompt p {
            margin: 0;
            color: #856404;
            font-size: 14px;
        }
        .cta-button {
            margin-top: 30px;
            text-align: center;
        }
        .cta-button a {
            display: inline-block;
            padding: 15px 30px;
            background-color: #3498db;
            color: white;
            text-decoration: none;
            border-radius: 5px;
            font-size: 16px;
            font-weight: bold;
        }
        .cta-button a:hover {
            background-color: #2980b9;
        }
        .footer {
            margin-top: 40px;
            padding-top: 20px;
            border-top: 1px solid #ecf0f1;
            text-align: center;
            font-size: 12px;
            color: #95a5a6;
        }
    </style>
</head>
<body>
    <div class=""container"">
        <div class=""header"">
            <h1>Morning Reflection</h1>
            <div class=""theme"">"
  const AfterTheme: string := "</div>\n        </div>\n\n        <div class=\"quote\">\n            "
  const AfterQuote: string := "\n            <div class=\"attribution\">\U{2014} "
  const AfterAttribution: string := "</div>\n        </div>\n\n        <div class=\"reflection\">\n            "
  const AfterReflection: string := "\n        </div>\n\n        "
  const BetweenBlocks: string := "\n\n        "
  const Foot: string := "\n\n        <div class=\"footer\">\n            Morning Reflection \U{2022} Powered by Claude\n        </div>\n    </div>\n</body>\n</html>"
  const PromptOpen: string := "\n        <div class=\"journaling-prompt\">\n            <h3>\U{1F4DD} Today's Journaling Prompt</h3>\n            <p>"
  const PromptClose: string := "</p>\n        </div>\n        "
  const LinkOpen: string := "\n        <div class=\"cta-button\">\n            <a href=\""
  const LinkClose: string := "\">Read & Journal Online</a>\n        </div>\n        "

  /** The fixed text of the page around its six slots, and the text
      around the prompt and the link in their optional blocks. */
  datatype Layout = Layout(head: string, afterTheme: string, afterQuote: string, afterAttribution: string,
                           afterReflection: string, betweenBlocks: string, foot: string,
                           promptOpen: string, promptClose: string, linkOpen: string, linkClose: string)

  const Template: Layout :=
    Layout(Head, AfterTheme, AfterQuote, AfterAttribution, AfterReflection, BetweenBlocks, Foot,
           PromptOpen, PromptClose, LinkOpen, LinkClose)

  /** A layout with its six slots filled in. */
  function Fill(l: Layout, theme: string, quote: string, attribution: string, paragraphs: string,
                prompt: string, link: string): string
  {
    l.head + theme + l.afterTheme + quote + l.afterQuote + attribution + l.afterAttribution + paragraphs
    + l.afterReflection + prompt + l.betweenBlocks + link + l.foot
  }

  /** The `<` of the layout's own text. */
  function LayoutTags(l: Layout): nat
  {
    CountLt(l.head) + CountLt(l.afterTheme) + CountLt(l.afterQuote) + CountLt(l.afterAttribution)
    + CountLt(l.afterReflection) + CountLt(l.betweenBlocks) + CountLt(l.foot)
  }

  /** The `<` of a filled layout are the layout's and those of its slots. */
  lemma FillTags(l: Layout, x1: string, x2: string, x3: string, x4: string, x5: string, x6: string)
    ensures CountLt(Fill(l, x1, x2, x3, x4, x5, x6)) ==
              LayoutTags(l) + CountLt(x1) + CountLt(x2) + CountLt(x3) + CountLt(x4) + CountLt(x5) + CountLt(x6)
  {
    var p1 := l.head + x1;
    var p2 := p1 + l.afterTheme;
    var p3 := p2 + x2;
    var p4 := p3 + l.afterQuote;
    var p5 := p4 + x3;
    var p6 := p5 + l.afterAttribution;
    var p7 := p6 + x4;
    var p8 := p7 + l.afterReflection;
    var p9 := p8 + x5;
    var p10 := p9 + l.betweenBlocks;
    var p11 := p10 + x6;
    CountLtConcat(l.head, x1);
    CountLtConcat(p1, l.afterTheme);
    CountLtConcat(p2, x2);
    CountLtConcat(p3, l.afterQuote);
    CountLtConcat(p4, x3);
    CountLtConcat(p5, l.afterAttribution);
    CountLtConcat(p6, x4);
    CountLtConcat(p7, l.afterReflection);
    CountLtConcat(p8, x5);
    CountLtConcat(p9, l.betweenBlocks);
    CountLtConcat(p10, x6);
    CountLtConcat(p11, l.foot);
  }

  /** The journaling-prompt block, present only for a non-empty prompt. */
  function PromptBlock(l: Layout, prompt: string): (r: string)
    ensures r == [] <==> prompt == []
  {
    if prompt != [] then l.promptOpen + Escape(prompt) + l.promptClose else []
  }

  /** The magic-link block, present only for a non-empty link; the link
      itself is inserted unescaped. */
  function LinkBlock(l: Layout, link: string): (r: string)
    ensures r == [] <==> link == []
  {
    if link != [] then l.linkOpen + link + l.linkClose else []
  }

  /** `format_html_email(quote, attribution, reflection, theme,
      journaling_prompt, magic_link)`, over any layout. */
  function HtmlEmailIn(l: Layout, quote: string, attribution: string, reflection: string, theme: string,
                       prompt: string, link: string): string
  {
    Fill(l, Escape(theme), Escape(quote), Escape(attribution), FormatReflectionParagraphs(reflection),
         PromptBlock(l, prompt), LinkBlock(l, link))
  }

  /** `format_html_email` with the page's own layout. */
  function HtmlEmail(quote: string, attribution: string, reflection: string, theme: string, prompt: string,
                     link: string): string
  {
    HtmlEmailIn(Template, quote, attribution, reflection, theme, prompt, link)
  }

  lemma PromptBlockTags(l: Layout, prompt: string)
    ensures CountLt(PromptBlock(l, prompt)) ==
              if prompt != [] then CountLt(l.promptOpen) + CountLt(l.promptClose) else 0
  {
    if prompt != [] {
      EscapedHasNoTags(prompt);
      ThreePartTags(l.promptOpen, Escape(prompt), l.promptClose);
    }
  }

  lemma LinkBlockTags(l: Layout, link: string)
    ensures CountLt(LinkBlock(l, link)) ==
              if link != [] then CountLt(l.linkOpen) + CountLt(l.linkClose) + CountLt(link) else 0
  {
    if link != [] {
      ThreePartTags(l.linkOpen, link, l.linkClose);
    }
  }

  /** No tag comes from the quote, the attribution, the theme, the prompt
      or the reflection's text: the `<` of the HTML are the layout's, two
      per reflection paragraph, the optional blocks' own, and those of the
      (unescaped) magic link. */
  lemma HtmlTags(l: Layout, quote: string, attribution: string, reflection: string, theme: string,
                 prompt: string, link: string)
    ensures CountLt(HtmlEmailIn(l, quote, attribution, reflection, theme, prompt, link)) ==
              LayoutTags(l) + 2 * |Paragraphs(reflection)|
              + (if prompt != [] then CountLt(l.promptOpen) + CountLt(l.promptClose) else 0)
              + (if link != [] then CountLt(l.linkOpen) + CountLt(l.linkClose) + CountLt(link) else 0)
  {
    FillTags(l, Escape(theme), Escape(quote), Escape(attribution), FormatReflectionParagraphs(reflection),
             PromptBlock(l, prompt), LinkBlock(l, link));
    EscapedHasNoTags(theme);
    EscapedHasNoTags(quote);
    EscapedHasNoTags(attribution);
    ReflectionTags(reflection);
    PromptBlockTags(l, prompt);
    LinkBlockTags(l, link);
  }

  // ---------------------------------------------------------------------
  // Plain text, subject, content check

  const Divider: string := Repeat('=', 70)
  const PlainFooter: string := "Morning Reflection \U{2022} Powered by Claude"

  /** The journaling-prompt section of the plain text. */
  function PlainPrompt(prompt: string): string
  {
    if prompt != [] then
      "\n" + Divider + "\n\U{1F4DD} Today's Journaling Prompt\n" + Divider + "\n\n" + prompt + "\n\n"
    else ""
  }

  /** The plain-text template between its divider line and its footer. */
  function PlainMiddle(quote: string, attribution: string, reflection: string, prompt: string): string
  {
    "\nMORNING REFLECTION\n" + Divider + "\n\n\"" + quote + "\"\n\n\U{2014} " + attribution + "\n\n"
    + Divider + "\n\n" + reflection + "\n\n" + PlainPrompt(prompt) + "\n" + Divider + "\n"
  }

  /** The plain-text template before `strip()`. */
  function PlainBody(quote: string, attribution: string, reflection: string, prompt: string): string
  {
    "\n" + (Divider + PlainMiddle(quote, attribution, reflection, prompt) + PlainFooter) + "\n"
  }

  /** `format_plain_text_email(quote, attribution, reflection,
      journaling_prompt)`. */
  function PlainTextEmail(quote: string, attribution: string, reflection: string, prompt: string): string
  {
    Strip(PlainBody(quote, attribution, reflection, prompt))
  }

  lemma StripFramed(m: string)
    requires m != [] && !IsSpace(m[0]) && !IsSpace(m[|m| - 1])
    ensures Strip("\n" + m + "\n") == m
  {
    var t := m + "\n";
    assert "\n" + m + "\n" == ['\n'] + t;
    LStripSkipsSpace('\n', t);
    assert t[0] == m[0];
    assert LStrip(t) == t;
    RStripSkipsSpace(m, '\n');
    assert RStrip(m) == m;
  }

  lemma FramedStrip(d: string, mid: string, f: string)
    requires |d| > 0 && |f| > 0 && !IsSpace(d[0]) && !IsSpace(f[|f| - 1])
    ensures Strip("\n" + (d + mid + f) + "\n") == d + mid + f
    ensures (d + mid + f)[..|d|] == d && (d + mid + f)[|d + mid + f| - |f|..] == f
  {
    var m := d + mid + f;
    assert m[0] == d[0];
    assert m[|m| - 1] == f[|f| - 1];
    StripFramed(m);
  }

  lemma FooterEnd()
    ensures |PlainFooter| > 0 && PlainFooter[|PlainFooter| - 1] == 'e'
  {
  }

  /** The plain text is the template with only its outer newlines trimmed:
      it starts with the divider and ends with the footer line, whatever the
      fields hold. */
  lemma PlainTextTrimmed(quote: string, attribution: string, reflection: string, prompt: string)
    ensures var t := PlainTextEmail(quote, attribution, reflection, prompt);
            && t == Divider + PlainMiddle(quote, attribution, reflection, prompt) + PlainFooter
            && t[..|Divider|] == Divider
            && t[|t| - |PlainFooter|..] == PlainFooter
  {
    FooterEnd();
    assert Divider[0] == '=';
    FramedStrip(Divider, PlainMiddle(quote, attribution, reflection, prompt), PlainFooter);
  }

  const SubjectPrefix: string := "Daily Stoic Reflection: "

  /** `create_email_subject(theme)`. */
  function EmailSubject(theme: string): (subject: string)
    ensures |subject| == |SubjectPrefix| + |theme|
    ensures subject[..|SubjectPrefix|] == SubjectPrefix && subject[|SubjectPrefix|..] == theme
  {
    SubjectPrefix + theme
  }

  /** The theme can be read back from a subject. */
  lemma SubjectRoundTrip(t1: string, t2: string)
    ensures EmailSubject(t1) == EmailSubject(t2) <==> t1 == t2
  {
    if EmailSubject(t1) == EmailSubject(t2) {
      assert EmailSubject(t1)[|SubjectPrefix|..] == t1;
    }
  }

  /** The result of `validate_email_content`. */
  datatype EmailValidation = EmailValidation(
    hasQuote: bool,
    hasAttribution: bool,
    hasReflection: bool,
    reflectionMinLength: bool,
    reflectionMaxLength: bool,
    isValid: bool)

  const MinWords: nat := 200
  const MaxWords: nat := 500

  predicate Blank(s: string)
  {
    forall i :: 0 <= i < |s| ==> IsSpace(s[i])
  }

  /** `validate_email_content(quote, attribution, reflection)`. */
  function ValidateEmailContent(quote: string, attribution: string, reflection: string): EmailValidation
  {
    var words := |Words(reflection)|;
    var hasQuote := Strip(quote) != [];
    var hasAttribution := Strip(attribution) != [];
    var hasReflection := Strip(reflection) != [];
    var minLength := words >= MinWords;
    EmailValidation(hasQuote, hasAttribution, hasReflection, minLength, words <= MaxWords,
                    hasQuote && hasAttribution && hasReflection && minLength)
  }

  /** Content is valid exactly when the quote and attribution are not blank
      and the reflection has at least 200 words; the 500-word flag plays no
      part, so a reflection of any length above 200 words is valid. */
  lemma EmailContentValidIff(quote: string, attribution: string, reflection: string)
    ensures var v := ValidateEmailContent(quote, attribution, reflection);
            && (v.hasQuote <==> !Blank(quote))
            && (v.hasAttribution <==> !Blank(attribution))
            && (v.hasReflection <==> !Blank(reflection))
            && (v.isValid <==> !Blank(quote) && !Blank(attribution) && |Words(reflection)| >= MinWords)
  {
    StripEmptyIffBlank(quote);
    StripEmptyIffBlank(attribution);
    StripEmptyIffBlank(reflection);
    if Blank(reflection) {
      WordsOfBlank(reflection);
    }
  }
}
