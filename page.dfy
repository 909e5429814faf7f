/** The entry page `process_markdown` writes into the output buffer
    (src/main.rs:271-372): the document head with its optional lines in a
    fixed order, the header fragment filled in through the template engine,
    the rendered markdown and the footer fragment; and the whole pipeline of
    one document, from parser events to entry and page. */
module Page {
  import opened Results
  import opened Template
  import opened Text
  import opened Feeds
  import opened Blog
  import opened Markdown

  /** The optional lines of the document head. */
  datatype HeadLine =
    | TitleLine(title: string)
    | FaviconLink(url: string)
    /** The description meta and the two Open Graph metas that follow it. */
    | DescriptionMetas(title: string, description: string)
    | ImageMeta(url: string)
    | AuthorMeta(author: string)
    | LocaleMeta(locale: string)
    | SiteNameMeta(name: string)
    | StyleBlock(css: string)

  /** The position of each kind of line in the head. */
  function Rank(h: HeadLine): nat
  {
    match h
    case TitleLine(_) => 0
    case FaviconLink(_) => 1
    case DescriptionMetas(_, _) => 2
    case ImageMeta(_) => 3
    case AuthorMeta(_) => 4
    case LocaleMeta(_) => 5
    case SiteNameMeta(_) => 6
    case StyleBlock(_) => 7
  }

  /** The fixed markup around the values of the head lines. */
  const FaviconOpen := "<link rel=\"shortcut icon\" type=\"image/png\" href=\""
  const EmptyTagClose := "\" />\n"
  const DescriptionOpen := "<meta name=\"description\" content=\""
  const OgTitleOpen := "<meta property=\"og:title\" content=\""
  const OgDescriptionOpen := "<meta property=\"og:description\" content=\""
  const OgImageOpen := "<meta name=\"og:image\" content=\""
  const OgImageClose := "\">\n"
  const AuthorOpen := "<meta name=\"author\" content=\""
  const OgLocaleOpen := "<meta property=\"og:locale\" content=\""
  const OgSiteNameOpen := "<meta property=\"og:site_name\" content=\""
  const StyleOpen := "<style>\n"
  const StyleClose := "</style>\n"

  /** The text the program writes for a head line. */
  function RenderHeadLine(h: HeadLine): string
  {
    match h
    case TitleLine(t) => TitleOpen + t + TitleClose
    case FaviconLink(u) => FaviconOpen + u + EmptyTagClose
    case DescriptionMetas(t, d) =>
      DescriptionOpen + d + EmptyTagClose + OgTitleOpen + t + EmptyTagClose + OgDescriptionOpen + d + EmptyTagClose
    case ImageMeta(u) => OgImageOpen + u + OgImageClose
    case AuthorMeta(a) => AuthorOpen + a + EmptyTagClose
    case LocaleMeta(l) => OgLocaleOpen + l + EmptyTagClose
    case SiteNameMeta(s) => OgSiteNameOpen + s + EmptyTagClose
    case StyleBlock(css) => StyleOpen + css + StyleClose
  }

  /** What the head is built from: the metadata buffers, the options and the
      style sheet fragment. */
  datatype HeadInput = HeadInput(title: string, description: string, author: string, cfg: Config, css: string)

  /** A line when its condition holds, and nothing otherwise. */
  function Opt(present: bool, h: HeadLine): seq<HeadLine>
  {
    if present then [h] else []
  }

  /** The value of an option that is given, and "" otherwise (it is only
      read where the option is given). */
  function OrEmpty(o: Option<string>): string
  {
    if o.Some? then o.value else ""
  }

  /** Eight optional head lines, each with the condition under which it is
      written, in the order they are written. A proof device with no
      counterpart in the program: bundling the slots lets the lemmas below
      be proved once for any eight lines. */
  datatype HeadSlots = HeadSlots(c0: bool, h0: HeadLine, c1: bool, h1: HeadLine,
                                 c2: bool, h2: HeadLine, c3: bool, h3: HeadLine,
                                 c4: bool, h4: HeadLine, c5: bool, h5: HeadLine,
                                 c6: bool, h6: HeadLine, c7: bool, h7: HeadLine)

  /** The optional head lines in the order the program writes them, each
      with the condition the program tests: the title and the description
      metas when their buffer is not empty, the favicon link and the
      og:image meta when a favicon is configured, the author meta when the
      author buffer is not empty, the locale and site name metas when those
      options are given, and the style sheet when its fragment is not empty. */
  function HeadSlotsOf(hd: HeadInput): HeadSlots
  {
    HeadSlots(hd.title != "", TitleLine(hd.title),
      hd.cfg.favicon.Some?, FaviconLink(OrEmpty(hd.cfg.favicon)),
      hd.description != "", DescriptionMetas(hd.title, hd.description),
      hd.cfg.favicon.Some?, ImageMeta(OrEmpty(hd.cfg.favicon)),
      hd.author != "", AuthorMeta(hd.author),
      hd.cfg.opengraphLocale.Some?, LocaleMeta(OrEmpty(hd.cfg.opengraphLocale)),
      hd.cfg.siteName.Some?, SiteNameMeta(OrEmpty(hd.cfg.siteName)),
      hd.css != "", StyleBlock(hd.css))
  }

  /** The lines of the slots whose condition holds, in order. */
  function SlotLines(a: HeadSlots): seq<HeadLine>
  {
    Opt(a.c0, a.h0) + Opt(a.c1, a.h1) + Opt(a.c2, a.h2) + Opt(a.c3, a.h3)
    + Opt(a.c4, a.h4) + Opt(a.c5, a.h5) + Opt(a.c6, a.h6) + Opt(a.c7, a.h7)
  }

  /** The lines of the head between the charset meta and `</head>`. */
  function HeadLines(hd: HeadInput): seq<HeadLine>
  {
    SlotLines(HeadSlotsOf(hd))
  }

  /** The text of a run of head lines. */
  function HeadText(lines: seq<HeadLine>): string
    decreases |lines|
  {
    if |lines| == 0 then "" else HeadText(lines[..|lines| - 1]) + RenderHeadLine(lines[|lines| - 1])
  }

  /** Strictly increasing rank: each kind of line at most once, in the fixed order. */
  predicate StrictlyRanked(lines: seq<HeadLine>)
  {
    forall i, j :: 0 <= i < j < |lines| ==> Rank(lines[i]) < Rank(lines[j])
  }

  /** Strictly ranked lines below rank `k`, followed by at most one line of
      rank `k`, stay strictly ranked. */
  lemma RankedAppend(lines: seq<HeadLine>, present: bool, h: HeadLine, k: nat)
    requires StrictlyRanked(lines) && forall x :: x in lines ==> Rank(x) < k
    requires Rank(h) == k
    ensures StrictlyRanked(lines + Opt(present, h))
    ensures forall x :: x in lines + Opt(present, h) ==> Rank(x) <= k
  {
    if present {
      forall i, j | 0 <= i < j < |lines| + 1
        ensures Rank((lines + [h])[i]) < Rank((lines + [h])[j])
      {
        assert (lines + [h])[i] == lines[i];
        if j == |lines| {
          assert lines[i] in lines;
        }
      }
    } else {
      assert lines + [] == lines;
    }
  }

  /** Slots holding one line of each rank, in increasing rank, give strictly
      ranked lines. */
  lemma SlotsOrdered(a: HeadSlots)
    requires Rank(a.h0) == 0 && Rank(a.h1) == 1 && Rank(a.h2) == 2 && Rank(a.h3) == 3
    requires Rank(a.h4) == 4 && Rank(a.h5) == 5 && Rank(a.h6) == 6 && Rank(a.h7) == 7
    ensures StrictlyRanked(SlotLines(a))
  {
    var lines: seq<HeadLine> := [];
    RankedAppend(lines, a.c0, a.h0, 0);
    assert lines + Opt(a.c0, a.h0) == Opt(a.c0, a.h0);
    lines := Opt(a.c0, a.h0);
    RankedAppend(lines, a.c1, a.h1, 1);
    lines := lines + Opt(a.c1, a.h1);
    RankedAppend(lines, a.c2, a.h2, 2);
    lines := lines + Opt(a.c2, a.h2);
    RankedAppend(lines, a.c3, a.h3, 3);
    lines := lines + Opt(a.c3, a.h3);
    RankedAppend(lines, a.c4, a.h4, 4);
    lines := lines + Opt(a.c4, a.h4);
    RankedAppend(lines, a.c5, a.h5, 5);
    lines := lines + Opt(a.c5, a.h5);
    RankedAppend(lines, a.c6, a.h6, 6);
    lines := lines + Opt(a.c6, a.h6);
    RankedAppend(lines, a.c7, a.h7, 7);
  }

  /** The head lines appear in the order of the program, each at most once:
      title, favicon link, description metas, og:image, author, og:locale,
      og:site_name, style sheet. */
  lemma HeadLinesOrdered(hd: HeadInput)
    ensures StrictlyRanked(HeadLines(hd))
  {
    SlotsOrdered(HeadSlotsOf(hd));
  }

  /** A line is among the slots' lines exactly when some slot holding it has
      its condition true. */
  lemma SlotMembers(x: HeadLine, a: HeadSlots)
    ensures x in SlotLines(a) <==>
      || (a.c0 && x == a.h0) || (a.c1 && x == a.h1) || (a.c2 && x == a.h2) || (a.c3 && x == a.h3)
      || (a.c4 && x == a.h4) || (a.c5 && x == a.h5) || (a.c6 && x == a.h6) || (a.c7 && x == a.h7)
  {
    var l1 := Opt(a.c0, a.h0);
    OptMember(x, [], a.c0, a.h0);
    assert [] + Opt(a.c0, a.h0) == l1;
    OptMember(x, l1, a.c1, a.h1);
    var l2 := l1 + Opt(a.c1, a.h1);
    OptMember(x, l2, a.c2, a.h2);
    var l3 := l2 + Opt(a.c2, a.h2);
    OptMember(x, l3, a.c3, a.h3);
    var l4 := l3 + Opt(a.c3, a.h3);
    OptMember(x, l4, a.c4, a.h4);
    var l5 := l4 + Opt(a.c4, a.h4);
    OptMember(x, l5, a.c5, a.h5);
    var l6 := l5 + Opt(a.c5, a.h5);
    OptMember(x, l6, a.c6, a.h6);
    var l7 := l6 + Opt(a.c6, a.h6);
    OptMember(x, l7, a.c7, a.h7);
  }

  lemma OptMember(x: HeadLine, lines: seq<HeadLine>, c: bool, h: HeadLine)
    ensures x in lines + Opt(c, h) <==> x in lines || (c && x == h)
  {
  }

  /** The head lines that come from the document's metadata and the style
      sheet: each is in the head exactly when its text is not empty. */
  lemma HeadLinesMembers(hd: HeadInput)
    ensures TitleLine(hd.title) in HeadLines(hd) <==> hd.title != ""
    ensures DescriptionMetas(hd.title, hd.description) in HeadLines(hd) <==> hd.description != ""
    ensures AuthorMeta(hd.author) in HeadLines(hd) <==> hd.author != ""
    ensures StyleBlock(hd.css) in HeadLines(hd) <==> hd.css != ""
  {
    SlotMembers(TitleLine(hd.title), HeadSlotsOf(hd));
    SlotMembers(DescriptionMetas(hd.title, hd.description), HeadSlotsOf(hd));
    SlotMembers(AuthorMeta(hd.author), HeadSlotsOf(hd));
    SlotMembers(StyleBlock(hd.css), HeadSlotsOf(hd));
  }

  /** The two head lines that come from the favicon option: both are in the
      head, with the option's value, exactly when a favicon is given. */
  lemma HeadFaviconMembers(hd: HeadInput, v: string)
    ensures FaviconLink(v) in HeadLines(hd) <==> hd.cfg.favicon == Some(v)
    ensures ImageMeta(v) in HeadLines(hd) <==> hd.cfg.favicon == Some(v)
  {
    SlotMembers(FaviconLink(v), HeadSlotsOf(hd));
    SlotMembers(ImageMeta(v), HeadSlotsOf(hd));
  }

  /** The Open Graph locale and site name lines: each is in the head, with
      the option's value, exactly when that option is given. */
  lemma HeadOpenGraphMembers(hd: HeadInput, v: string)
    ensures LocaleMeta(v) in HeadLines(hd) <==> hd.cfg.opengraphLocale == Some(v)
    ensures SiteNameMeta(v) in HeadLines(hd) <==> hd.cfg.siteName == Some(v)
  {
    SlotMembers(LocaleMeta(v), HeadSlotsOf(hd));
    SlotMembers(SiteNameMeta(v), HeadSlotsOf(hd));
  }

  /** `out` followed by the line `h` when it is present. */
  function Step(out: string, present: bool, h: HeadLine): string
  {
    if present then out + RenderHeadLine(h) else out
  }

  /** `out` followed by the style sheet block, written in three pieces, when
      there is a style sheet. */
  function WriteStyle(out: string, css: string): string
  {
    if css != "" then out + StyleOpen + css + StyleClose else out
  }

  /** `out` followed by the lines of the slots whose condition holds, each
      written in turn. */
  function SlotsWritten(out: string, a: HeadSlots): string
  {
    Step(Step(Step(Step(Step(Step(Step(Step(out, a.c0, a.h0), a.c1, a.h1), a.c2, a.h2), a.c3, a.h3),
      a.c4, a.h4), a.c5, a.h5), a.c6, a.h6), a.c7, a.h7)
  }

  /** `out` followed by the optional head lines, each written the moment its
      condition is tested. */
  function HeadWritten(out: string, hd: HeadInput): string
  {
    SlotsWritten(out, HeadSlotsOf(hd))
  }

  /** The text of lines followed by one more line. */
  lemma HeadTextSnoc(lines: seq<HeadLine>, h: HeadLine)
    ensures HeadText(lines + [h]) == HeadText(lines) + RenderHeadLine(h)
  {
    assert (lines + [h])[..|lines|] == lines;
  }

  /** Regrouping a concatenation. Proved once for any three strings, so
      that callers need not reason about the markup they concatenate. */
  lemma AppendAssoc(a: string, b: string, c: string)
    ensures a + b + c == a + (b + c)
  {
  }

  /** Writing one optional line after the text of `lines` gives the text of
      `lines` followed by that line, or by nothing. */
  lemma StepText(out: string, lines: seq<HeadLine>, present: bool, h: HeadLine)
    ensures Step(out + HeadText(lines), present, h) == out + HeadText(lines + Opt(present, h))
  {
    if present {
      HeadTextSnoc(lines, h);
      AppendAssoc(out, HeadText(lines), RenderHeadLine(h));
    } else {
      assert lines + [] == lines;
    }
  }

  /** The style sheet block, written in three pieces, is its head line. */
  lemma StyleStep(out: string, css: string)
    ensures WriteStyle(out, css) == Step(out, css != "", StyleBlock(css))
  {
    if css != "" {
      AppendAssoc(out + StyleOpen, css, StyleClose);
      AppendAssoc(out, StyleOpen, css + StyleClose);
      AppendAssoc(StyleOpen, css, StyleClose);
    }
  }

  /** Proof steps with no counterpart in the program: they split the eight
      head writes into groups the verifier handles cheaply. */
  lemma TwoSteps(out: string, lines: seq<HeadLine>, c1: bool, h1: HeadLine, c2: bool, h2: HeadLine)
    ensures Step(Step(out + HeadText(lines), c1, h1), c2, h2) ==
      out + HeadText(lines + Opt(c1, h1) + Opt(c2, h2))
  {
    StepText(out, lines, c1, h1);
    StepText(out, lines + Opt(c1, h1), c2, h2);
  }

  lemma FourSteps(out: string, lines: seq<HeadLine>, c1: bool, h1: HeadLine, c2: bool, h2: HeadLine,
                  c3: bool, h3: HeadLine, c4: bool, h4: HeadLine)
    ensures Step(Step(Step(Step(out + HeadText(lines), c1, h1), c2, h2), c3, h3), c4, h4) ==
      out + HeadText(lines + Opt(c1, h1) + Opt(c2, h2) + Opt(c3, h3) + Opt(c4, h4))
  {
    TwoSteps(out, lines, c1, h1, c2, h2);
    TwoSteps(out, lines + Opt(c1, h1) + Opt(c2, h2), c3, h3, c4, h4);
  }

  /** Four optional lines written after `out` give the text of those lines. */
  lemma FirstFourSteps(out: string, c0: bool, h0: HeadLine, c1: bool, h1: HeadLine,
                       c2: bool, h2: HeadLine, c3: bool, h3: HeadLine)
    ensures Step(Step(Step(Step(out, c0, h0), c1, h1), c2, h2), c3, h3) ==
      out + HeadText(Opt(c0, h0) + Opt(c1, h1) + Opt(c2, h2) + Opt(c3, h3))
  {
    var none: seq<HeadLine> := [];
    assert out + HeadText(none) == out;
    FourSteps(out, none, c0, h0, c1, h1, c2, h2, c3, h3);
    assert none + Opt(c0, h0) == Opt(c0, h0);
  }

  /** Writing the slots one by one gives the text of their lines. */
  lemma SlotsWrittenText(out: string, a: HeadSlots)
    ensures SlotsWritten(out, a) == out + HeadText(SlotLines(a))
  {
    var front := Opt(a.c0, a.h0) + Opt(a.c1, a.h1) + Opt(a.c2, a.h2) + Opt(a.c3, a.h3);
    FirstFourSteps(out, a.c0, a.h0, a.c1, a.h1, a.c2, a.h2, a.c3, a.h3);
    FourSteps(out, front, a.c4, a.h4, a.c5, a.h5, a.c6, a.h6, a.c7, a.h7);
  }

  /** What the program writes for the head is the text of `HeadLines`, so the
      head holds exactly the lines `HeadLinesMembers` lists, in the order
      `HeadLinesOrdered` states. */
  lemma HeadWrittenText(out: string, hd: HeadInput)
    ensures HeadWritten(out, hd) == out + HeadText(HeadLines(hd))
  {
    SlotsWrittenText(out, HeadSlotsOf(hd));
  }

  /** The header fragment's placeholder values. */
  function HeaderValues(entry: BlogEntry, cal: Calendar): map<string, string>
  {
    map["TITLE" := entry.title, "DESCRIPTION" := entry.description, "DATE" := HeaderDate(cal, entry.date)]
  }

  /** `out` followed by the `<html lang=...>` line when a language is given. */
  function WriteLanguage(out: string, language: Option<string>): string
  {
    if language.Some? then out + "<html lang=\"" + language.value + "\">\n" else out
  }

  /** The page text up to and including the end of the head. */
  function HeadPart(hd: HeadInput): string
  {
    var opening := WriteLanguage("<!DOCTYPE html>\n", hd.cfg.language) + "\n<head>\n<meta charset=\"UTF-8\">\n";
    HeadWritten(opening, hd) + "</head>\n\n"
  }

  /** `out` followed by a blank line and the footer when there is a footer. */
  function WriteFooter(out: string, footer: string): string
  {
    if footer != "" then out + "\n\n" + footer else out
  }

  /** The entry page: the head, the filled-in header fragment and a blank
      line when there is a header, the rendered markdown, then a blank line
      and the footer when there is a footer. Fails when the header fragment
      has a placeholder other than TITLE, DESCRIPTION and DATE. */
  function PageText(hd: HeadInput, fragments: Fragments, entry: BlogEntry, cal: Calendar, html: string): Result<string, Failure>
  {
    if fragments.header == "" then Ok(WriteFooter(HeadPart(hd) + html, fragments.footer))
    else
      match Substitute(fragments.header, HeaderValues(entry, cal))
      case Err(f) => Err(f)
      case Ok(header) => Ok(WriteFooter(HeadPart(hd) + header + "\n\n" + html, fragments.footer))
  }

  /** The page fails exactly when there is a header fragment with a
      placeholder other than TITLE, DESCRIPTION and DATE, and the error names
      such a placeholder. */
  lemma PageFailsIff(hd: HeadInput, fragments: Fragments, entry: BlogEntry, cal: Calendar, html: string)
    ensures PageText(hd, fragments, entry, cal, html).Err? <==>
      fragments.header != "" && exists k :: k in Placeholders(fragments.header) && k !in {"TITLE", "DESCRIPTION", "DATE"}
    ensures PageText(hd, fragments, entry, cal, html).Err? ==>
      var f := PageText(hd, fragments, entry, cal, html).error;
      f.MissingKey? && f.key in Placeholders(fragments.header) && f.key !in {"TITLE", "DESCRIPTION", "DATE"}
  {
    var values := HeaderValues(entry, cal);
    assert values.Keys == {"TITLE", "DESCRIPTION", "DATE"};
    SubstituteSucceedsIff(fragments.header, values);
  }

  /** A page that can be built starts with the head (whose optional lines
      `HeadWrittenText` describes), followed directly by the rendered
      markdown when there is no header fragment; it ends with the rendered
      markdown when there is no footer, and with a blank line and the footer
      when there is one. */
  lemma PageShape(hd: HeadInput, fragments: Fragments, entry: BlogEntry, cal: Calendar, html: string)
    requires PageText(hd, fragments, entry, cal, html).Ok?
    ensures var page := PageText(hd, fragments, entry, cal, html).value;
      && StartsWith(page, HeadPart(hd))
      && (fragments.header == "" ==> StartsWith(page, HeadPart(hd) + html))
      && (fragments.footer == "" ==> EndsWith(page, html))
      && (fragments.footer != "" ==> EndsWith(page, "\n\n" + fragments.footer))
  {
    var head := HeadPart(hd);
    var beforeFooter := if fragments.header == "" then head + html
      else head + Substitute(fragments.header, HeaderValues(entry, cal)).value + "\n\n" + html;
    if fragments.header == "" {
      AppendParts(head, html);
    } else {
      var header := Substitute(fragments.header, HeaderValues(entry, cal)).value;
      AppendParts(head, header);
      PrefixKept(head + header, "\n\n", head);
      PrefixKept(head + header + "\n\n", html, head);
      AppendParts(head + header + "\n\n", html);
    }
    if fragments.footer != "" {
      PrefixKept(beforeFooter, "\n\n", head);
      PrefixKept(beforeFooter + "\n\n", fragments.footer, head);
      if fragments.header == "" {
        PrefixKept(beforeFooter, "\n\n", head + html);
        PrefixKept(beforeFooter + "\n\n", fragments.footer, head + html);
      }
      AppendAssoc(beforeFooter, "\n\n", fragments.footer);
      AppendParts(beforeFooter, "\n\n" + fragments.footer);
    }
  }

  /** The part of `process_markdown` that writes the page into the output
      buffer, step by step in the order of the program. */
  method AssemblePage(cfg: Config, fragments: Fragments, entry: BlogEntry, cal: Calendar, buffers: Buffers)
    returns (r: Result<(), Failure>)
    modifies buffers`output
    ensures var hd := HeadInput(buffers.title, buffers.description, buffers.author, cfg, fragments.css);
      var page := PageText(hd, fragments, entry, cal, buffers.html);
      && (page.Err? ==> r == Err(page.error))
      && (page.Ok? ==> r == Ok(()) && buffers.output == page.value)
  {
    buffers.output := "";
    buffers.output := buffers.output + "<!DOCTYPE html>\n";
    assert buffers.output == "<!DOCTYPE html>\n";
    if cfg.language.Some? {
      buffers.output := buffers.output + "<html lang=\"" + cfg.language.value + "\">\n";
    }
    buffers.output := buffers.output + "\n<head>\n<meta charset=\"UTF-8\">\n";
    var hd := HeadInput(buffers.title, buffers.description, buffers.author, cfg, fragments.css);
    WriteHeadLines(hd, buffers);
    buffers.output := buffers.output + "</head>\n\n";
    assert buffers.output == HeadPart(hd);

    if fragments.header != "" {
      var header := FormatTemplate(fragments.header, HeaderValues(entry, cal));
      if header.Err? {
        return Err(header.error);
      }
      buffers.output := buffers.output + header.value;
      buffers.output := buffers.output + "\n\n";
    }
    buffers.output := buffers.output + buffers.html;
    if fragments.footer != "" {
      buffers.output := buffers.output + "\n\n";
      buffers.output := buffers.output + fragments.footer;
    }
    r := Ok(());
  }

  method WriteHeadLines(hd: HeadInput, buffers: Buffers)
    modifies buffers`output
    ensures buffers.output == HeadWritten(old(buffers.output), hd)
  {
    if hd.title != "" {
      buffers.output := buffers.output + RenderHeadLine(TitleLine(hd.title));
    }
    if hd.cfg.favicon.Some? {
      buffers.output := buffers.output + RenderHeadLine(FaviconLink(hd.cfg.favicon.value));
    }
    if hd.description != "" {
      buffers.output := buffers.output + RenderHeadLine(DescriptionMetas(hd.title, hd.description));
    }
    if hd.cfg.favicon.Some? {
      buffers.output := buffers.output + RenderHeadLine(ImageMeta(hd.cfg.favicon.value));
    }
    if hd.author != "" {
      buffers.output := buffers.output + RenderHeadLine(AuthorMeta(hd.author));
    }
    if hd.cfg.opengraphLocale.Some? {
      buffers.output := buffers.output + RenderHeadLine(LocaleMeta(hd.cfg.opengraphLocale.value));
    }
    if hd.cfg.siteName.Some? {
      buffers.output := buffers.output + RenderHeadLine(SiteNameMeta(hd.cfg.siteName.value));
    }
    if hd.css != "" {
      ghost var before := buffers.output;
      buffers.output := buffers.output + StyleOpen;
      buffers.output := buffers.output + hd.css;
      buffers.output := buffers.output + StyleClose;
      StyleStep(before, hd.css);
    }
  }

  /** One document's entry and page, from its metadata, the ids of its
      additional feeds and its rendered markdown: the entry is validated
      first, so a missing attribute is reported even when the header
      fragment is faulty too. */
  function Document(m: Meta, feeds: seq<nat>, urlName: string, cfg: Config, fragments: Fragments,
                    cal: Calendar, html: string): Result<(BlogEntry, string), Failure>
  {
    match BuildBlogEntry(m.title, m.description, m.date, urlName, feeds, cal.parse)
    case Err(f) => Err(f)
    case Ok(entry) =>
      match PageText(HeadInput(m.title, m.description, m.author, cfg, fragments.css), fragments, entry, cal, html)
      case Err(f) => Err(f)
      case Ok(page) => Ok((entry, page))
  }

  /** The metadata of a document is the value of the last directive of each
      kind (or empty), and the feed names in the order of their directives. */
  lemma MetadataOfDocument(events: seq<Event>)
    requires Extract(Directives(events), Blank).Ok?
    ensures var ds := Directives(events);
      var m := Extract(ds, Blank).value;
      && m.title == LastValue(ds, TitleLabel, "")
      && m.description == LastValue(ds, DescriptionLabel, "")
      && m.author == LastValue(ds, AuthorLabel, "")
      && m.date == LastValue(ds, DateLabel, "")
      && m.feedNames == FeedValues(ds)
  {
    var ds := Directives(events);
    LastDirectiveWins(ds, Blank, TitleLabel);
    LastDirectiveWins(ds, Blank, DescriptionLabel);
    LastDirectiveWins(ds, Blank, AuthorLabel);
    LastDirectiveWins(ds, Blank, DateLabel);
    FeedsAccumulate(ds, Blank);
  }

  /** Title, description and date are checked, in that order, before the
      header fragment is filled in. */
  lemma DocumentChecksAttributesFirst(m: Meta, feeds: seq<nat>, urlName: string, cfg: Config, fragments: Fragments,
                                      cal: Calendar, html: string)
    ensures var d := Document(m, feeds, urlName, cfg, fragments, cal, html);
      && (m.title == "" ==> d == Err(MissingAttribute("title")))
      && (m.title != "" && m.description == "" ==> d == Err(MissingAttribute("description")))
      && (m.title != "" && m.description != "" && m.date == "" ==> d == Err(MissingAttribute("date")))
      && (m.title != "" && m.description != "" && m.date != "" && cal.parse(m.date).None? ==> d == Err(BadDate(m.date)))
  {
  }

  /** A document that succeeds has an entry with its metadata, and its page
      carries the title line and the description metas. */
  lemma DocumentSucceeds(m: Meta, feeds: seq<nat>, urlName: string, cfg: Config, fragments: Fragments,
                         cal: Calendar, html: string)
    requires Document(m, feeds, urlName, cfg, fragments, cal, html).Ok?
    ensures var d := Document(m, feeds, urlName, cfg, fragments, cal, html).value;
      var hd := HeadInput(m.title, m.description, m.author, cfg, fragments.css);
      && d.0 == BlogEntry(urlName, m.title, m.description, cal.parse(m.date).value, feeds)
      && TitleLine(m.title) in HeadLines(hd)
      && DescriptionMetas(m.title, m.description) in HeadLines(hd)
      && StartsWith(d.1, HeadPart(hd))
  {
    var hd := HeadInput(m.title, m.description, m.author, cfg, fragments.css);
    var entry := BuildBlogEntry(m.title, m.description, m.date, urlName, feeds, cal.parse).value;
    HeadLinesMembers(hd);
    PageShape(hd, fragments, entry, cal, html);
  }

  /** `process_markdown`: reads the document's events (collecting its
      metadata and feed ids), renders them, validates the entry and writes
      the page into the output buffer. `render` stands for the HTML
      renderer. */
  method ProcessMarkdown(events: seq<Event>, urlName: string, cfg: Config, fragments: Fragments, cal: Calendar,
                         render: seq<Event> -> string, buffers: Buffers, tracker: FeedTracker)
    returns (r: Result<BlogEntry, Failure>)
    requires tracker.Valid()
    modifies buffers, tracker
    ensures tracker.Valid() && Extends(old(tracker.ids), tracker.ids)
    ensures Extract(Directives(events), Blank).Err? ==> r == Err(Extract(Directives(events), Blank).error)
    ensures Extract(Directives(events), Blank).Ok? ==>
      var m := Extract(Directives(events), Blank).value;
      && (forall n :: n in m.feedNames ==> n in tracker.ids)
      && Registered(tracker.ids, old(tracker.ids), m.feedNames)
      && (var added := NewNames(old(tracker.ids).Keys, m.feedNames);
          tracker.seen == old(tracker.seen) + added
          && tracker.nextFeedId == old(tracker.nextFeedId) + |added|
          && forall k :: 0 <= k < |added| ==> added[k] in tracker.ids && tracker.ids[added[k]] == old(tracker.nextFeedId) + k)
      && buffers.title == m.title
      && buffers.description == m.description
      && buffers.author == m.author
      && buffers.date == m.date
      && buffers.html == render(MapEvents(events))
      && var d := Document(m, IdsOf(m.feedNames, tracker.ids), urlName, cfg, fragments, cal, buffers.html);
      && (d.Err? ==> r == Err(d.error))
      && (d.Ok? ==> r == Ok(d.value.0) && buffers.output == d.value.1)
  {
    var mapped, feeds := TransformEvents(events, buffers, tracker);
    if mapped.Err? {
      return Err(mapped.error);
    }
    buffers.html := render(mapped.value);
    var entry := BuildBlogEntry(buffers.title, buffers.description, buffers.date, urlName, feeds, cal.parse);
    if entry.Err? {
      return Err(entry.error);
    }
    var page := AssemblePage(cfg, fragments, entry.value, cal, buffers);
    if page.Err? {
      return Err(page.error);
    }
    r := Ok(entry.value);
  }
}
