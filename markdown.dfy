/** The markdown event transformer of `process_markdown` (src/main.rs): the
    closure that rewrites `image_description` code fences and reads the
    `<!--label: value-->` directives into the metadata buffers and the list of
    additional feeds. Parsing markdown into events is foreign and so is the
    renderer: the model starts from the sequence of events. */
module Markdown {
  import opened Results
  import opened Text
  import opened Feeds
  import opened Blog

  /** The parser events the transformer distinguishes; every other event of
      the markdown parser is `Other`. */
  datatype Event =
    | StartFenced(language: string)
    | EndFenced(language: string)
    | Html(text: string)
    | Other(content: string)

  const ImageDescriptionLanguage := "image_description"
  const ImageDescriptionOpen := "<div class=\"ImageDescription\"><p>"
  const ImageDescriptionClose := "</p></div>"

  /** The event the transformer hands to the renderer: the start and end of
      an `image_description` fence become raw HTML that opens and closes a
      paragraph in a div; every other event, directives included, is kept. */
  function MapEvent(e: Event): (r: Event)
    ensures e == StartFenced(ImageDescriptionLanguage) ==> r == Html(ImageDescriptionOpen)
    ensures e == EndFenced(ImageDescriptionLanguage) ==> r == Html(ImageDescriptionClose)
    ensures e != StartFenced(ImageDescriptionLanguage) && e != EndFenced(ImageDescriptionLanguage) ==> r == e
  {
    match e
    case StartFenced(language) =>
      if language == ImageDescriptionLanguage then Html(ImageDescriptionOpen) else e
    case EndFenced(language) =>
      if language == ImageDescriptionLanguage then Html(ImageDescriptionClose) else e
    case _ => e
  }

  function MapEvents(events: seq<Event>): seq<Event>
  {
    seq(|events|, i requires 0 <= i < |events| => MapEvent(events[i]))
  }

  /** The directive labels the transformer acts on; any other text before
      the ':' is `Unknown` and has no effect. */
  datatype Label =
    | TitleLabel
    | DescriptionLabel
    | AuthorLabel
    | DateLabel
    | AdditionalFeedLabel
    | Unknown(name: string)

  /** The label a directive's name stands for, matched exactly (case and
      surrounding spaces included). */
  function LabelOf(name: string): Label
  {
    if name == "title" then TitleLabel
    else if name == "description" then DescriptionLabel
    else if name == "author" then AuthorLabel
    else if name == "date" then DateLabel
    else if name == "additional-feed" then AdditionalFeedLabel
    else Unknown(name)
  }

  /** What an event is to the metadata reader. */
  datatype Directive =
    | NotDirective
    /** A raw HTML comment whose "<!--" and "-->" overlap, so that slicing
        its body out underflows; `text` is the event's text. */
    | TooShort(text: string)
    | Directive(kind: Label, value: string)

  predicate IsComment(t: string)
  {
    StartsWith(t, "<!--") && EndsWith(t, "-->")
  }

  /** The text between "<!--" and "-->". */
  function CommentBody(t: string): string
    requires |t| >= 7
  {
    t[4..|t| - 3]
  }

  /** A raw HTML text is a directive when, trimmed, it is a comment whose
      body holds a ':'. The name is the body up to the first ':', untrimmed;
      the value is the rest, trimmed. */
  function ParseDirective(html: string): Directive
  {
    var t := Trim(html);
    if !IsComment(t) then NotDirective
    else if |t| < 7 then TooShort(html)
    else
      var body := CommentBody(t);
      match IndexOf(body, ':', 0)
      case None => NotDirective
      case Some(colon) => Directive(LabelOf(body[..colon]), Trim(body[colon + 1..]))
  }

  /** A text is not a directive exactly when, trimmed, it is not a comment,
      or it is a comment long enough to slice whose body has no ':'. */
  lemma ParseNotDirective(html: string)
    ensures var t := Trim(html);
      ParseDirective(html).NotDirective? <==> !IsComment(t) || (|t| >= 7 && ':' !in CommentBody(t))
  {
    var t := Trim(html);
    if IsComment(t) && |t| >= 7 {
      IndexOfMeaning(CommentBody(t), ':', 0);
    }
  }

  /** A text is reported too short exactly when, trimmed, it is a comment
      whose "<!--" and "-->" overlap. */
  lemma ParseTooShort(html: string)
    ensures var t := Trim(html);
      ParseDirective(html) == TooShort(html) <==> IsComment(t) && |t| < 7
  {
  }

  /** A directive's label is that of the body's text before its first ':',
      and its value is the rest of the body, trimmed. */
  lemma ParseDirectiveParts(html: string) returns (name: string)
    requires ParseDirective(html).Directive?
    ensures |Trim(html)| >= 7
    ensures var body := CommentBody(Trim(html));
      && ':' !in name
      && StartsWith(body, name + ":")
      && ParseDirective(html).kind == LabelOf(name)
      && ParseDirective(html).value == Trim(body[|name| + 1..])
  {
    var body := CommentBody(Trim(html));
    IndexOfMeaning(body, ':', 0);
    var colon := IndexOf(body, ':', 0).value;
    name := body[..colon];
    assert name + ":" == body[..colon + 1];
  }

  /** A directive written out is read back: the comment "<!--name:raw-->",
      with no ':' in `name`, has the label of `name` and the trimmed `raw`
      as its value (the comment needs no trimming: it starts with '<' and
      ends with '>'). */
  lemma DirectiveRoundTrip(name: string, raw: string)
    requires ':' !in name
    ensures ParseDirective("<!--" + name + ":" + raw + "-->") == Directive(LabelOf(name), Trim(raw))
  {
    var html := "<!--" + name + ":" + raw + "-->";
    assert html[0] == '<' && html[|html| - 1] == '>';
    TrimNoOp(html);
    assert html[..4] == "<!--";
    assert html[|html| - 3..] == "-->";
    var body := CommentBody(html);
    assert body == name + ":" + raw;
    IndexOfMeaning(body, ':', 0);
    assert body[|name|] == ':';
    assert IndexOf(body, ':', 0) == Some(|name|);
    assert body[..|name|] == name && body[|name| + 1..] == raw;
  }

  /** A comment with no ':' in it, the empty comment "<!---->" included,
      is not a directive. */
  lemma NoColonNoDirective(body: string)
    requires ':' !in body
    ensures ParseDirective("<!--" + body + "-->") == NotDirective
  {
    var html := "<!--" + body + "-->";
    assert html[0] == '<' && html[|html| - 1] == '>';
    TrimNoOp(html);
    assert html[..4] == "<!--";
    assert html[|html| - 3..] == "-->";
    assert CommentBody(html) == body;
    IndexOfMeaning(body, ':', 0);
  }

  /** Trimming drops whitespace padding and nothing else. */
  lemma TrimPadding(pre: string, s: string, post: string)
    requires forall k :: 0 <= k < |pre| ==> IsWhitespace(pre[k])
    requires forall k :: 0 <= k < |post| ==> IsWhitespace(post[k])
    requires |s| > 0 && !IsWhitespace(s[0]) && !IsWhitespace(s[|s| - 1])
    ensures Trim(pre + s + post) == s
  {
    var x := pre + s + post;
    var b := TrimBounds(x);
    TrimBoundsMeaning(x);
    assert x[|pre|] == s[0] && x[|pre| + |s| - 1] == s[|s| - 1];
    assert b.0 == |pre|;
    assert b.1 == |pre| + |s|;
    assert x[b.0..b.1] == s;
  }

  /** A space before the name makes the label unknown. */
  lemma SpacedLabelUnknown(raw: string)
    ensures ParseDirective("<!-- title:" + raw + "-->") == Directive(Unknown(" title"), Trim(raw))
  {
    assert "<!-- title:" == "<!--" + " title" + ":";
    assert " title"[0] == ' ' && "author"[0] == 'a';
    DirectiveRoundTrip(" title", raw);
  }

  /** A comment too short to slice is reported, whatever it holds. */
  lemma ShortestCommentTooShort()
    ensures ParseDirective("<!-->") == TooShort("<!-->")
  {
    TrimNoOp("<!-->");
  }

  /** What each event is to the metadata reader: only raw HTML can be a
      directive. */
  function Classify(e: Event): Directive
  {
    if e.Html? then ParseDirective(e.text) else NotDirective
  }

  function Directives(events: seq<Event>): seq<Directive>
  {
    seq(|events|, i requires 0 <= i < |events| => Classify(events[i]))
  }

  /** The metadata a document's directives set. */
  datatype Meta = Meta(
    title: string,
    description: string,
    author: string,
    date: string,
    feedNames: seq<string>)

  /** The metadata buffers once cleared, before a document is read. */
  const Blank := Meta("", "", "", "", [])

  /** The effect of one directive: the four text labels overwrite their
      field, "additional-feed" appends a feed name, and any other label does
      nothing. */
  function ApplyDirective(m: Meta, kind: Label, value: string): Meta
  {
    match kind
    case TitleLabel => m.(title := value)
    case DescriptionLabel => m.(description := value)
    case AuthorLabel => m.(author := value)
    case DateLabel => m.(date := value)
    case AdditionalFeedLabel => m.(feedNames := m.feedNames + [value])
    case Unknown(_) => m
  }

  /** The effect of one event's directive on the metadata; a comment too
      short to slice ends the run. */
  function Absorb(m: Meta, d: Directive): Result<Meta, Failure>
  {
    match d
    case NotDirective => Ok(m)
    case TooShort(text) => Err(CommentTooShort(text))
    case Directive(kind, value) => Ok(ApplyDirective(m, kind, value))
  }

  /** The metadata after reading `ds`, in order, starting from `m`. */
  function Extract(ds: seq<Directive>, m: Meta): Result<Meta, Failure>
    decreases |ds|
  {
    if ds == [] then Ok(m)
    else
      match Absorb(m, ds[0])
      case Err(f) => Err(f)
      case Ok(m') => Extract(ds[1..], m')
  }

  /** Reference definition, read from the end: the value of the last
      directive of kind `kind`, or `default` when there is none. */
  function LastValue(ds: seq<Directive>, kind: Label, default: string): string
    decreases |ds|
  {
    if ds == [] then default
    else
      var last := ds[|ds| - 1];
      if last.Directive? && last.kind == kind then last.value
      else LastValue(ds[..|ds| - 1], kind, default)
  }

  /** The feed name one directive contributes. */
  function FeedStep(d: Directive): seq<string>
  {
    if d.Directive? && d.kind == AdditionalFeedLabel then [d.value] else []
  }

  /** Reference definition: the values of the "additional-feed" directives,
      in document order. */
  function FeedValues(ds: seq<Directive>): seq<string>
    decreases |ds|
  {
    if ds == [] then [] else FeedStep(ds[0]) + FeedValues(ds[1..])
  }

  predicate IsTextLabel(kind: Label)
  {
    kind.TitleLabel? || kind.DescriptionLabel? || kind.AuthorLabel? || kind.DateLabel?
  }

  /** The metadata field a text label sets. */
  function Field(m: Meta, kind: Label): string
    requires IsTextLabel(kind)
  {
    match kind
    case TitleLabel => m.title
    case DescriptionLabel => m.description
    case AuthorLabel => m.author
    case DateLabel => m.date
  }

  lemma {:induction false} LastValueCons(d: Directive, rest: seq<Directive>, kind: Label, default: string)
    ensures LastValue([d] + rest, kind, default) == LastValue(rest, kind, LastValue([d], kind, default))
    decreases |rest|
  {
    if rest == [] {
      assert [d] + rest == [d];
    } else {
      var s := [d] + rest;
      assert s[|s| - 1] == rest[|rest| - 1];
      assert s[..|s| - 1] == [d] + rest[..|rest| - 1];
      LastValueCons(d, rest[..|rest| - 1], kind, default);
    }
  }

  /** The last directive wins: after reading a document, each of title,
      description, author and date holds the value of the last directive with
      that label, or what it held before when there is none. */
  lemma {:induction false} LastDirectiveWins(ds: seq<Directive>, m: Meta, kind: Label)
    requires IsTextLabel(kind) && Extract(ds, m).Ok?
    ensures Field(Extract(ds, m).value, kind) == LastValue(ds, kind, Field(m, kind))
    decreases |ds|
  {
    if ds != [] {
      var d := ds[0];
      assert ds == [d] + ds[1..];
      LastDirectiveWins(ds[1..], Absorb(m, d).value, kind);
      LastValueCons(d, ds[1..], kind, Field(m, kind));
      assert [d][..0] == [];
    }
  }

  /** Every "additional-feed" directive appends its value, duplicates
      included, in document order. */
  lemma {:induction false} FeedsAccumulate(ds: seq<Directive>, m: Meta)
    requires Extract(ds, m).Ok?
    ensures Extract(ds, m).value.feedNames == m.feedNames + FeedValues(ds)
    decreases |ds|
  {
    if ds == [] {
      assert m.feedNames + [] == m.feedNames;
    } else {
      FeedsAccumulate(ds[1..], Absorb(m, ds[0]).value);
      var step, rest := FeedStep(ds[0]), FeedValues(ds[1..]);
      assert m.feedNames + step + rest == m.feedNames + (step + rest);
    }
  }

  /** Reading fails exactly when some raw HTML comment is too short to hold
      "<!--" and "-->" apart, and the error names the first such comment. */
  lemma {:induction false} ExtractFailsIff(ds: seq<Directive>, m: Meta)
    ensures Extract(ds, m).Err? <==> exists i :: 0 <= i < |ds| && ds[i].TooShort?
    ensures Extract(ds, m).Err? ==> exists i ::
      && 0 <= i < |ds| && ds[i].TooShort?
      && Extract(ds, m).error == CommentTooShort(ds[i].text)
      && forall j :: 0 <= j < i ==> !ds[j].TooShort?
    decreases |ds|
  {
    if ds != [] {
      if ds[0].TooShort? {
        assert Extract(ds, m).error == CommentTooShort(ds[0].text);
      } else {
        ExtractFailsIff(ds[1..], Absorb(m, ds[0]).value);
        if exists i :: 0 <= i < |ds| && ds[i].TooShort? {
          var i :| 0 <= i < |ds| && ds[i].TooShort?;
          assert ds[1..][i - 1].TooShort?;
        }
        if Extract(ds, m).Err? {
          var i :| 0 <= i < |ds[1..]| && ds[1..][i].TooShort?
            && Extract(ds[1..], Absorb(m, ds[0]).value).error == CommentTooShort(ds[1..][i].text)
            && forall j :: 0 <= j < i ==> !ds[1..][j].TooShort?;
          assert ds[i + 1].TooShort?;
          forall j | 0 <= j < i + 1
            ensures !ds[j].TooShort?
          {
            if j > 0 {
              assert ds[j] == ds[1..][j - 1];
            }
          }
        }
      }
    }
  }

  /** The registered ids of `names`, in order. */
  function IdsOf(names: seq<string>, ids: map<string, nat>): seq<nat>
    requires forall n :: n in names ==> n in ids
  {
    seq(|names|, i requires 0 <= i < |names| => ids[names[i]])
  }

  /** Registering one more name keeps the ids of the names before it and
      appends the id of the new one. */
  lemma IdsOfGrow(names: seq<string>, n: string, before: map<string, nat>, after: map<string, nat>)
    requires forall x :: x in names ==> x in before
    requires Extends(before, after) && n in after
    ensures forall x :: x in names + [n] ==> x in after
    ensures IdsOf(names + [n], after) == IdsOf(names, before) + [after[n]]
  {
  }

  /** The metadata the buffers hold, with the feed names read so far. */
  function Current(buffers: Buffers, names: seq<string>): Meta
    reads buffers
  {
    Meta(buffers.title, buffers.description, buffers.author, buffers.date, names)
  }

  /** The tracker knows exactly the names of `base` and the feed names read. */
  ghost predicate Registered(ids: map<string, nat>, base: map<string, nat>, names: seq<string>)
  {
    forall n :: n in ids <==> n in base || n in names
  }

  /** What the tracker and the feed ids hold once the feed names `names` of
      a document have been read, starting from the registrations `base` and
      the first-seen order `seen0`: every name is registered, nothing else
      is new, the new names were appended in first-seen order, and `feeds`
      are the names' ids. */
  ghost predicate Tracking(tracker: FeedTracker, base: map<string, nat>, seen0: seq<string>,
                           names: seq<string>, feeds: seq<nat>)
    reads tracker
  {
    && tracker.Valid()
    && Extends(base, tracker.ids)
    && (forall n :: n in names ==> n in tracker.ids)
    && Registered(tracker.ids, base, names)
    && tracker.seen == seen0 + NewNames(base.Keys, names)
    && feeds == IdsOf(names, tracker.ids)
  }

  /** An "additional-feed" directive: identifies the feed and appends its
      id to the document's feed ids. */
  method RegisterFeed(value: string, tracker: FeedTracker, feeds: seq<nat>,
                      ghost base: map<string, nat>, ghost seen0: seq<string>, ghost names: seq<string>)
    returns (feeds': seq<nat>, ghost names': seq<string>)
    requires Tracking(tracker, base, seen0, names, feeds)
    modifies tracker
    ensures names' == names + [value]
    ensures Extends(old(tracker.ids), tracker.ids)
    ensures Tracking(tracker, base, seen0, names', feeds')
  {
    ghost var before := tracker.ids;
    var id := tracker.Identify(value);
    feeds' := feeds + [id];
    names' := names + [value];
    IdsOfGrow(names, value, before, tracker.ids);
    NewNamesSnoc(base.Keys, names, value);
    assert value in before <==> value in base.Keys || value in names;
  }

  /** The closure `process_markdown` maps over the events: rewrites an
      `image_description` fence, applies a directive to the buffers (and, for
      "additional-feed", to the tracker and the feed ids), and hands the event
      on. A directive comment too short to slice ends the run. */
  method VisitEvent(
    event: Event, buffers: Buffers, tracker: FeedTracker, feeds: seq<nat>,
    ghost base: map<string, nat>, ghost seen0: seq<string>, ghost names: seq<string>)
    returns (r: Result<Event, Failure>, feeds': seq<nat>, ghost names': seq<string>)
    requires Tracking(tracker, base, seen0, names, feeds)
    modifies buffers`title, buffers`description, buffers`author, buffers`date, tracker
    ensures tracker.Valid() && Extends(old(tracker.ids), tracker.ids)
    ensures Absorb(old(Current(buffers, names)), Classify(event)).Err? ==>
      r == Err(Absorb(old(Current(buffers, names)), Classify(event)).error)
    ensures Absorb(old(Current(buffers, names)), Classify(event)).Ok? ==>
      && r == Ok(MapEvent(event))
      && Current(buffers, names') == Absorb(old(Current(buffers, names)), Classify(event)).value
      && Tracking(tracker, base, seen0, names', feeds')
  {
    feeds', names' := feeds, names;
    match event {
      case StartFenced(language) =>
        if language == ImageDescriptionLanguage {
          return Ok(Html(ImageDescriptionOpen)), feeds', names';
        }
      case EndFenced(language) =>
        if language == ImageDescriptionLanguage {
          return Ok(Html(ImageDescriptionClose)), feeds', names';
        }
      case Html(text) =>
        match ParseDirective(text) {
          case NotDirective =>
          case TooShort(_) =>
            return Err(CommentTooShort(text)), feeds', names';
          case Directive(kind, value) =>
            if kind == TitleLabel {
              buffers.title := value;
            } else if kind == DescriptionLabel {
              buffers.description := value;
            } else if kind == AuthorLabel {
              buffers.author := value;
            } else if kind == DateLabel {
              buffers.date := value;
            } else if kind == AdditionalFeedLabel {
              feeds', names' := RegisterFeed(value, tracker, feeds, base, seen0, names);
            }
        }
      case Other(_) =>
    }
    r := Ok(event);
  }

  /** The event loop of `process_markdown`, from cleared buffers: passes
      every event through `VisitEvent`, in order, and stops at the first
      failure. */
  method VisitEvents(events: seq<Event>, buffers: Buffers, tracker: FeedTracker)
    returns (r: Result<seq<Event>, Failure>, feeds: seq<nat>, ghost names: seq<string>)
    requires tracker.Valid()
    requires Current(buffers, []) == Blank
    modifies buffers`title, buffers`description, buffers`author, buffers`date, tracker
    ensures tracker.Valid() && Extends(old(tracker.ids), tracker.ids)
    ensures Extract(Directives(events), Blank).Err? ==> r == Err(Extract(Directives(events), Blank).error)
    ensures Extract(Directives(events), Blank).Ok? ==>
      && r == Ok(MapEvents(events))
      && Current(buffers, names) == Extract(Directives(events), Blank).value
      && Tracking(tracker, old(tracker.ids), old(tracker.seen), names, feeds)
  {
    feeds := [];
    names := [];
    ghost var ds := Directives(events);
    ghost var base, seen0 := tracker.ids, tracker.seen;
    assert ds[0..] == ds;
    assert seen0 + NewNames(base.Keys, names) == seen0;

    var mapped: seq<Event> := [];
    var i := 0;
    while i < |events|
      invariant 0 <= i <= |events|
      invariant Extract(ds, Blank) == Extract(ds[i..], Current(buffers, names))
      invariant mapped == MapEvents(events[..i])
      invariant Tracking(tracker, base, seen0, names, feeds)
    {
      var event := events[i];
      assert ds[i..][0] == Classify(event) && ds[i..][1..] == ds[i + 1..];
      var out;
      out, feeds, names := VisitEvent(event, buffers, tracker, feeds, base, seen0, names);
      if out.Err? {
        return Err(out.error), feeds, names;
      }
      assert MapEvents(events[..i + 1]) == MapEvents(events[..i]) + [MapEvent(event)];
      mapped := mapped + [out.value];
      i := i + 1;
    }
    r := Ok(mapped);
    assert events[..i] == events;
    assert ds[i..] == [];
  }

  /** The transformer of `process_markdown`: clears the four metadata
      buffers, then reads the events. On success each buffer holds its last
      directive's value, the tracker has registered the new feed names in
      first-seen order, and `feeds` are the ids of the feed names read. */
  method TransformEvents(events: seq<Event>, buffers: Buffers, tracker: FeedTracker)
    returns (r: Result<seq<Event>, Failure>, feeds: seq<nat>)
    requires tracker.Valid()
    modifies buffers`title, buffers`description, buffers`author, buffers`date, tracker
    ensures tracker.Valid() && Extends(old(tracker.ids), tracker.ids)
    ensures Extract(Directives(events), Blank).Err? ==> r == Err(Extract(Directives(events), Blank).error)
    ensures Extract(Directives(events), Blank).Ok? ==>
      var m := Extract(Directives(events), Blank).value;
      && r == Ok(MapEvents(events))
      && buffers.title == m.title
      && buffers.description == m.description
      && buffers.author == m.author
      && buffers.date == m.date
      && (forall n :: n in m.feedNames ==> n in tracker.ids)
      && feeds == IdsOf(m.feedNames, tracker.ids)
      && Registered(tracker.ids, old(tracker.ids), m.feedNames)
      && (var added := NewNames(old(tracker.ids).Keys, m.feedNames);
          tracker.seen == old(tracker.seen) + added
          && tracker.nextFeedId == old(tracker.nextFeedId) + |added|
          && forall k :: 0 <= k < |added| ==> added[k] in tracker.ids && tracker.ids[added[k]] == old(tracker.nextFeedId) + k)
  {
    buffers.title := "";
    buffers.description := "";
    buffers.author := "";
    buffers.date := "";
    ghost var names;
    ghost var seen0 := tracker.seen;
    r, feeds, names := VisitEvents(events, buffers, tracker);
    if r.Ok? {
      ghost var added := NewNames(old(tracker.ids).Keys, names);
      forall k | 0 <= k < |added|
        ensures added[k] in tracker.ids && tracker.ids[added[k]] == |seen0| + k
      {
        assert tracker.seen[|seen0| + k] == added[k];
      }
    }
  }
}
