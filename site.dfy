/** The site assembler of `main` (src/main.rs:530-614, 724-745): the entries
    are sorted by date, most recent first; the main RSS feed lists every
    entry and each additional feed the entries that name it; the list page
    renders every entry through the `blog_entry` fragment and wraps the
    result in the `blog_list` fragment. */
module Site {
  import opened Results
  import opened Template
  import opened Blog

  // ---------------------------------------------------------------------
  // Ordering
  // ---------------------------------------------------------------------

  /** Most recent first: no entry is dated after an entry before it. */
  predicate SortedByDateDescending(s: seq<BlogEntry>)
  {
    forall i, j :: 0 <= i < j < |s| ==> s[i].date >= s[j].date
  }

  /** The entries of `s` dated `d`, in the order of `s`. */
  function WithDate(s: seq<BlogEntry>, d: Date): seq<BlogEntry>
    decreases |s|
  {
    if |s| == 0 then []
    else (if s[0].date == d then [s[0]] else []) + WithDate(s[1..], d)
  }

  lemma {:induction false} WithDateMember(s: seq<BlogEntry>, d: Date, e: BlogEntry)
    ensures e in WithDate(s, d) <==> e in s && e.date == d
    decreases |s|
  {
    if |s| > 0 {
      WithDateMember(s[1..], d, e);
      assert s == [s[0]] + s[1..];
    }
  }

  lemma {:induction false} WithDateConcat(a: seq<BlogEntry>, b: seq<BlogEntry>, d: Date)
    ensures WithDate(a + b, d) == WithDate(a, d) + WithDate(b, d)
    decreases |a|
  {
    if |a| == 0 {
      assert a + b == b;
    } else {
      assert (a + b)[0] == a[0];
      assert (a + b)[1..] == a[1..] + b;
      WithDateConcat(a[1..], b, d);
      var first := if a[0].date == d then [a[0]] else [];
      assert WithDate(a + b, d) == first + (WithDate(a[1..], d) + WithDate(b, d));
      assert first + (WithDate(a[1..], d) + WithDate(b, d)) == first + WithDate(a[1..], d) + WithDate(b, d);
    }
  }

  /** Exchanging two neighbours with different dates keeps, for every date,
      the order of the entries of that date. */
  lemma SwapKeepsWithDate(s: seq<BlogEntry>, j: nat, d: Date)
    requires 0 < j < |s| && s[j - 1].date != s[j].date
    ensures WithDate(s[j - 1 := s[j]][j := s[j - 1]], d) == WithDate(s, d)
  {
    var p, u, v, q := s[..j - 1], s[j - 1], s[j], s[j + 1..];
    assert s == p + [u, v] + q;
    assert s[j - 1 := s[j]][j := s[j - 1]] == p + [v, u] + q;
    WithDateConcat(p + [u, v], q, d);
    WithDateConcat(p, [u, v], d);
    WithDateConcat(p + [v, u], q, d);
    WithDateConcat(p, [v, u], d);
    assert [u, v][1..] == [v];
    assert [v, u][1..] == [u];
  }

  /** The first entry of a sorted sequence is dated no earlier than any
      entry of it. */
  lemma FirstIsLatest(s: seq<BlogEntry>, e: BlogEntry)
    requires SortedByDateDescending(s) && e in s
    ensures s[0].date >= e.date
  {
    var k :| 0 <= k < |s| && s[k] == e;
    if k > 0 {
      assert s[0].date >= s[k].date;
    }
  }

  lemma FirstHasItsDate(s: seq<BlogEntry>)
    ensures |s| > 0 ==> s[0] in WithDate(s, s[0].date)
  {
  }

  /** Two sorted sequences with the same entries of each date start with
      the same entry: each first entry is among the other's entries of its
      date, so both are dated the latest date of both, and both are the
      first entry of that date. */
  lemma SameFirst(x: seq<BlogEntry>, y: seq<BlogEntry>)
    requires SortedByDateDescending(x) && SortedByDateDescending(y)
    requires |x| > 0 && |y| > 0
    requires forall d :: WithDate(x, d) == WithDate(y, d)
    ensures x[0] == y[0]
  {
    FirstHasItsDate(x);
    FirstHasItsDate(y);
    assert WithDate(x, y[0].date) == WithDate(y, y[0].date);
    assert WithDate(x, x[0].date) == WithDate(y, x[0].date);
    WithDateMember(x, y[0].date, y[0]);
    WithDateMember(y, x[0].date, x[0]);
    FirstIsLatest(x, y[0]);
    FirstIsLatest(y, x[0]);
    var latest := x[0].date;
    assert WithDate(x, latest)[0] == x[0];
    assert WithDate(y, latest)[0] == y[0];
  }

  /** With the same first entry and the same entries of date `d`, the
      tails have the same entries of date `d`. */
  lemma SameTailAt(x: seq<BlogEntry>, y: seq<BlogEntry>, d: Date)
    requires |x| > 0 && |y| > 0 && x[0] == y[0]
    requires WithDate(x, d) == WithDate(y, d)
    ensures WithDate(x[1..], d) == WithDate(y[1..], d)
  {
    var rx, ry := WithDate(x[1..], d), WithDate(y[1..], d);
    var head := if x[0].date == d then [x[0]] else [];
    assert WithDate(x, d) == head + rx;
    assert WithDate(y, d) == head + ry;
    assert (head + rx)[|head|..] == rx;
    assert (head + ry)[|head|..] == ry;
  }

  /** The same, for every date at once. */
  lemma SameTails(x: seq<BlogEntry>, y: seq<BlogEntry>)
    requires |x| > 0 && |y| > 0 && x[0] == y[0]
    requires forall d :: WithDate(x, d) == WithDate(y, d)
    ensures forall d :: WithDate(x[1..], d) == WithDate(y[1..], d)
  {
    forall d
      ensures WithDate(x[1..], d) == WithDate(y[1..], d)
    {
      SameTailAt(x, y, d);
    }
  }

  /** Sorted by date, most recent first, with the entries of each date in a
      given order: at most one sequence is that. So the three promises of
      `SortByDateDescending` fix its result, which is therefore the one of
      any stable sort by descending date. */
  lemma {:induction false} SortedUnique(x: seq<BlogEntry>, y: seq<BlogEntry>)
    requires SortedByDateDescending(x) && SortedByDateDescending(y)
    requires forall d :: WithDate(x, d) == WithDate(y, d)
    ensures x == y
    decreases |x|
  {
    FirstHasItsDate(x);
    FirstHasItsDate(y);
    if |x| == 0 || |y| == 0 {
      // Then both are empty: a first entry of either would be among the
      // entries of its date in the other.
    } else {
      SameFirst(x, y);
      SameTails(x, y);
      SortedUnique(x[1..], y[1..]);
      assert x == [x[0]] + x[1..];
      assert y == [y[0]] + y[1..];
    }
  }

  /** The first `n` entries are sorted, most recent first. */
  ghost predicate SortedBelow(s: seq<BlogEntry>, n: nat)
    requires n <= |s|
  {
    forall p, q :: 0 <= p < q < n ==> s[p].date >= s[q].date
  }

  /** Midway through inserting entry `i` into the sorted entries before it:
      the entry being moved is at `j`, the entries up to `i` other than it
      are sorted, and it is dated no earlier than the ones after it. */
  ghost predicate Inserting(s: seq<BlogEntry>, i: nat, j: nat)
  {
    && j <= i < |s|
    && (forall p, q :: 0 <= p < q <= i && p != j && q != j ==> s[p].date >= s[q].date)
    && (forall q :: j < q <= i ==> s[j].date >= s[q].date)
  }

  /** The same entries, and for every date the same entries of that date in
      the same order. */
  ghost predicate SameEntries(s: seq<BlogEntry>, t: seq<BlogEntry>)
  {
    multiset(s) == multiset(t) && forall d :: WithDate(s, d) == WithDate(t, d)
  }

  /** `s` with the entries at `j - 1` and `j` exchanged. */
  function Swap(s: seq<BlogEntry>, j: nat): seq<BlogEntry>
    requires 0 < j < |s|
  {
    s[j - 1 := s[j]][j := s[j - 1]]
  }

  lemma InsertStart(s: seq<BlogEntry>, i: nat)
    requires i < |s| && SortedBelow(s, i)
    ensures Inserting(s, i, i)
  {
  }

  /** Moving the entry one place towards the front, past an entry dated
      before it, keeps the insertion going and keeps the same entries. */
  lemma InsertSwap(s: seq<BlogEntry>, i: nat, j: nat)
    requires Inserting(s, i, j) && 0 < j && s[j - 1].date < s[j].date
    ensures Inserting(Swap(s, j), i, j - 1)
    ensures SameEntries(Swap(s, j), s)
  {
    var t := Swap(s, j);
    forall p, q | 0 <= p < q <= i && p != j - 1 && q != j - 1
      ensures t[p].date >= t[q].date
    {
      if p == j {
        assert t[p] == s[j - 1];
      } else if q == j {
        assert t[q] == s[j - 1];
      }
    }
    forall d
      ensures WithDate(t, d) == WithDate(s, d)
    {
      SwapKeepsWithDate(s, j, d);
    }
  }

  /** The insertion ends when the entry reaches the front or an entry dated
      no earlier than it: the first `i + 1` entries are then sorted. */
  lemma InsertDone(s: seq<BlogEntry>, i: nat, j: nat)
    requires Inserting(s, i, j) && (j == 0 || s[j - 1].date >= s[j].date)
    ensures SortedBelow(s, i + 1)
  {
    forall p, q | 0 <= p < q <= i
      ensures s[p].date >= s[q].date
    {
      if q == j && p < j - 1 {
        assert s[p].date >= s[j - 1].date;
      }
    }
  }

  lemma SameEntriesTrans(s: seq<BlogEntry>, t: seq<BlogEntry>, u: seq<BlogEntry>)
    requires SameEntries(s, t) && SameEntries(t, u)
    ensures SameEntries(s, u)
  {
  }

  /** The sort of `main` (`sort_by` with the dates compared right to left):
      most recent first, a permutation, and stable, so that entries with
      the same date keep the order they were found in. It is written as an
      insertion sort that only exchanges neighbours whose dates differ. */
  method SortByDateDescending(a: array<BlogEntry>)
    modifies a
    ensures SortedByDateDescending(a[..])
    ensures multiset(a[..]) == multiset(old(a[..]))
    ensures forall d :: WithDate(a[..], d) == WithDate(old(a[..]), d)
  {
    var i := 0;
    while i < a.Length
      invariant 0 <= i <= a.Length
      invariant SortedBelow(a[..], i)
      invariant SameEntries(a[..], old(a[..]))
    {
      InsertStart(a[..], i);
      var j := i;
      while j > 0 && a[j - 1].date < a[j].date
        invariant Inserting(a[..], i, j)
        invariant SameEntries(a[..], old(a[..]))
      {
        ghost var before := a[..];
        InsertSwap(before, i, j);
        a[j - 1], a[j] := a[j], a[j - 1];
        assert a[..] == Swap(before, j);
        SameEntriesTrans(a[..], before, old(a[..]));
        j := j - 1;
      }
      InsertDone(a[..], i, j);
      i := i + 1;
    }
  }

  // ---------------------------------------------------------------------
  // RSS
  // ---------------------------------------------------------------------

  /** The program's version, named in every feed. */
  const Version := "0.0.1"

  /** The channel language when none is configured. */
  const DefaultLanguage := "en_US"

  const XmlDeclaration := "<?xml version=\"1.0\"?>\n"
  const GeneratedOpen := "<!--RSS generated "
  const GeneratedBy := " by floc_blog "
  const CommentClose := "-->\n"
  const ChannelOpen := "<rss version=\"2.0\">\n<channel>\n"
  const LanguageOpen := "<language>"
  const LanguageClose := "</language>\n"
  const GeneratorOpen := "<generator>floc_blog "
  const GeneratorClose := "</generator>\n"
  const ChannelClose := "</channel>\n</rss>\n"

  const ItemOpen := "<item>\n"
  const ItemTitleOpen := "\t<title>"
  const ItemDescriptionOpen := "\t<description>"
  const ItemDescriptionClose := "</description>\n"
  const ItemDateOpen := "\t<pubDate>"
  const ItemDateClose := "</pubDate>\n"
  const ItemLinkOpen := "\t<link>"
  const ItemLinkClose := "</link>\n"
  const ItemClose := "</item>\n"

  /** The address of an entry's page: the base URL, a slash, its name. */
  function EntryLink(baseUrl: string, entry: BlogEntry): string
  {
    baseUrl + "/" + entry.urlName
  }

  /** Whether a feed lists an entry: the main feed (no id) lists every
      entry, an additional feed the entries that name its id. */
  predicate InFeed(feedId: Option<nat>, entry: BlogEntry)
  {
    feedId.None? || feedId.value in entry.additionalFeeds
  }

  /** The entries a feed lists, in the order given. */
  function Selected(entries: seq<BlogEntry>, feedId: Option<nat>): seq<BlogEntry>
    decreases |entries|
  {
    if |entries| == 0 then []
    else
      var last := entries[|entries| - 1];
      Selected(entries[..|entries| - 1], feedId) + (if InFeed(feedId, last) then [last] else [])
  }

  /** The `<item>` block of one entry. */
  function ItemText(entry: BlogEntry, cal: Calendar, baseUrl: string): string
  {
    ItemOpen
    + ItemTitleOpen + entry.title + TitleClose
    + ItemDescriptionOpen + entry.description + ItemDescriptionClose
    + ItemDateOpen + cal.rfc2822(entry.date) + ItemDateClose
    + ItemLinkOpen + EntryLink(baseUrl, entry) + ItemLinkClose
    + ItemClose
  }

  /** The `<item>` block of each entry, as a function of the entry. */
  function ItemRenderer(cal: Calendar, baseUrl: string): BlogEntry -> string
  {
    e => ItemText(e, cal, baseUrl)
  }

  /** The blocks `item` gives for entries, one after another in their order. */
  function ItemsText(entries: seq<BlogEntry>, item: BlogEntry -> string): string
    decreases |entries|
  {
    if |entries| == 0 then ""
    else ItemsText(entries[..|entries| - 1], item) + item(entries[|entries| - 1])
  }

  /** The channel header: the XML declaration, a comment with the time of
      generation and the version, the channel's language (configured or
      "en_US") and title (the site name or nothing), the generator, and an
      empty line. */
  function RssHead(cfg: Config, now: string): string
  {
    var language := if cfg.language.Some? then cfg.language.value else DefaultLanguage;
    var title := if cfg.siteName.Some? then cfg.siteName.value else "";
    XmlDeclaration
    + GeneratedOpen + now + GeneratedBy + Version + CommentClose
    + ChannelOpen
    + LanguageOpen + language + LanguageClose
    + TitleOpen + title + TitleClose
    + GeneratorOpen + Version + GeneratorClose
    + "\n"
  }

  /** A feed document: the channel header, the items of the entries the
      feed lists, in order, and the end of the channel. `now` is the time of
      generation, which the program reads from the clock. */
  function RssText(cfg: Config, feedId: Option<nat>, entries: seq<BlogEntry>, cal: Calendar, now: string): string
  {
    RssHead(cfg, now) + ItemsText(Selected(entries, feedId), ItemRenderer(cal, cfg.blogBaseUrl)) + "\n" + ChannelClose
  }

  lemma SelectedSnoc(entries: seq<BlogEntry>, e: BlogEntry, feedId: Option<nat>)
    ensures Selected(entries + [e], feedId) == Selected(entries, feedId) + (if InFeed(feedId, e) then [e] else [])
  {
    assert (entries + [e])[..|entries|] == entries;
  }

  lemma ItemsTextSnoc(entries: seq<BlogEntry>, e: BlogEntry, item: BlogEntry -> string)
    ensures ItemsText(entries + [e], item) == ItemsText(entries, item) + item(e)
  {
    assert (entries + [e])[..|entries|] == entries;
  }

  /** The items of one more entry: those before, then its block when the
      feed lists it. */
  lemma ItemsStep(entries: seq<BlogEntry>, i: nat, feedId: Option<nat>, item: BlogEntry -> string)
    requires i < |entries|
    ensures ItemsText(Selected(entries[..i + 1], feedId), item) ==
      ItemsText(Selected(entries[..i], feedId), item) + (if InFeed(feedId, entries[i]) then item(entries[i]) else "")
  {
    var before := Selected(entries[..i], feedId);
    assert entries[..i + 1] == entries[..i] + [entries[i]];
    SelectedSnoc(entries[..i], entries[i], feedId);
    if InFeed(feedId, entries[i]) {
      ItemsTextSnoc(before, entries[i], item);
    } else {
      assert before + [] == before;
    }
  }

  /** `format_rss`: the items are appended entry by entry, skipping the
      entries the feed does not list. */
  method FormatRss(cfg: Config, feedId: Option<nat>, entries: seq<BlogEntry>, cal: Calendar, now: string)
    returns (rss: string)
    ensures rss == RssText(cfg, feedId, entries, cal, now)
  {
    var items := "";
    for i := 0 to |entries|
      invariant items == ItemsText(Selected(entries[..i], feedId), ItemRenderer(cal, cfg.blogBaseUrl))
    {
      var entry := entries[i];
      ItemsStep(entries, i, feedId, ItemRenderer(cal, cfg.blogBaseUrl));
      if feedId.Some? && feedId.value !in entry.additionalFeeds {
        continue;
      }
      items := items + ItemText(entry, cal, cfg.blogBaseUrl);
    }
    assert entries[..|entries|] == entries;
    rss := RssHead(cfg, now) + items + "\n" + ChannelClose;
  }

  /** The main feed lists every entry. */
  lemma {:induction false} MainFeedListsAll(entries: seq<BlogEntry>)
    ensures Selected(entries, None) == entries
    decreases |entries|
  {
    if |entries| > 0 {
      MainFeedListsAll(entries[..|entries| - 1]);
      assert entries[..|entries| - 1] + [entries[|entries| - 1]] == entries;
    }
  }

  /** An additional feed lists an entry exactly when the entry is given
      and names the feed's id. */
  lemma {:induction false} FeedListsIff(entries: seq<BlogEntry>, id: nat, e: BlogEntry)
    ensures e in Selected(entries, Some(id)) <==> e in entries && id in e.additionalFeeds
    decreases |entries|
  {
    if |entries| > 0 {
      var init := entries[..|entries| - 1];
      FeedListsIff(init, id, e);
      assert entries == init + [entries[|entries| - 1]];
    }
  }

  /** Filtering keeps the order: the entries a feed lists from two runs of
      entries are those of the first run followed by those of the second. */
  lemma {:induction false} SelectedConcat(a: seq<BlogEntry>, b: seq<BlogEntry>, feedId: Option<nat>)
    ensures Selected(a + b, feedId) == Selected(a, feedId) + Selected(b, feedId)
    decreases |b|
  {
    if |b| == 0 {
      assert a + b == a;
    } else {
      var init := b[..|b| - 1];
      var last := b[|b| - 1];
      assert (a + b)[..|a + b| - 1] == a + init;
      assert (a + b)[|a + b| - 1] == last;
      SelectedConcat(a, init, feedId);
    }
  }

  /** Every entry a feed lists is among the entries given. */
  lemma {:induction false} SelectedWithin(entries: seq<BlogEntry>, feedId: Option<nat>, e: BlogEntry)
    requires e in Selected(entries, feedId)
    ensures e in entries && InFeed(feedId, e)
    decreases |entries|
  {
    var init := entries[..|entries| - 1];
    var last := entries[|entries| - 1];
    assert entries == init + [last];
    if e in Selected(init, feedId) {
      SelectedWithin(init, feedId, e);
    }
  }

  /** A feed of sorted entries is sorted: its items are most recent first. */
  lemma {:induction false} SelectedSorted(entries: seq<BlogEntry>, feedId: Option<nat>)
    requires SortedByDateDescending(entries)
    ensures SortedByDateDescending(Selected(entries, feedId))
    decreases |entries|
  {
    if |entries| > 0 {
      var init := entries[..|entries| - 1];
      var last := entries[|entries| - 1];
      SelectedSorted(init, feedId);
      var kept := Selected(init, feedId);
      forall e | e in kept
        ensures e.date >= last.date
      {
        SelectedWithin(init, feedId, e);
        var k :| 0 <= k < |init| && init[k] == e;
        assert entries[k] == e;
      }
      var all := Selected(entries, feedId);
      forall p, q | 0 <= p < q < |all|
        ensures all[p].date >= all[q].date
      {
        if q >= |kept| {
          assert all[p] == kept[p];
          assert kept[p] in kept;
        }
      }
    }
  }

  /** The items of two runs of entries are the items of the first run
      followed by those of the second. */
  lemma {:induction false} ItemsTextConcat(a: seq<BlogEntry>, b: seq<BlogEntry>, item: BlogEntry -> string)
    ensures ItemsText(a + b, item) == ItemsText(a, item) + ItemsText(b, item)
    decreases |b|
  {
    if |b| == 0 {
      assert a + b == a;
    } else {
      var init, last := b[..|b| - 1], b[|b| - 1];
      assert b == init + [last];
      assert a + b == (a + init) + [last];
      ItemsTextSnoc(a + init, last, item);
      ItemsTextSnoc(init, last, item);
      ItemsTextConcat(a, init, item);
    }
  }

  /** The main feed's items are those of every entry, in order. */
  lemma MainFeedText(cfg: Config, entries: seq<BlogEntry>, cal: Calendar, now: string)
    ensures RssText(cfg, None, entries, cal, now) ==
      RssHead(cfg, now) + ItemsText(entries, ItemRenderer(cal, cfg.blogBaseUrl)) + "\n" + ChannelClose
  {
    MainFeedListsAll(entries);
  }

  // ---------------------------------------------------------------------
  // The list page
  // ---------------------------------------------------------------------

  /** The placeholders the `blog_entry` fragment may use. */
  const EntryKeys: set<string> := {"TITLE", "DESCRIPTION", "DATE", "LINK"}

  /** The values of one entry for the `blog_entry` fragment: its title and
      description, its date in the list format, and its address. */
  function EntryValues(entry: BlogEntry, cal: Calendar, baseUrl: string): (values: map<string, string>)
    ensures values.Keys == EntryKeys
  {
    map["TITLE" := entry.title, "DESCRIPTION" := entry.description,
        "DATE" := ListDate(cal, entry.date), "LINK" := EntryLink(baseUrl, entry)]
  }

  /** The `blog_entry` fragment filled in for one entry. */
  function EntryRenderer(fragment: string, cal: Calendar, baseUrl: string): BlogEntry -> Result<string, Failure>
  {
    e => Substitute(fragment, EntryValues(e, cal, baseUrl))
  }

  /** Each entry rendered by `render` in turn and the results put one after
      another; the first entry that fails stops the run with its error. */
  function ListEntries(entries: seq<BlogEntry>, render: BlogEntry -> Result<string, Failure>): Result<string, Failure>
    decreases |entries|
  {
    if |entries| == 0 then Ok("")
    else
      match ListEntries(entries[..|entries| - 1], render)
      case Err(f) => Err(f)
      case Ok(done) => Prepend(done, render(entries[|entries| - 1]))
  }

  /** The list page: the entries rendered through the `blog_entry`
      fragment, put in place of `$ENTRIES$` in the `blog_list` fragment. */
  function BlogListText(entries: seq<BlogEntry>, fragments: Fragments, cal: Calendar, baseUrl: string): Result<string, Failure>
  {
    match ListEntries(entries, EntryRenderer(fragments.blogEntry, cal, baseUrl))
    case Err(f) => Err(f)
    case Ok(rendered) => Substitute(fragments.blogList, map["ENTRIES" := rendered])
  }

  lemma ListEntriesSnoc(entries: seq<BlogEntry>, e: BlogEntry, render: BlogEntry -> Result<string, Failure>)
    ensures ListEntries(entries + [e], render) ==
      match ListEntries(entries, render)
      case Err(f) => Err(f)
      case Ok(done) => Prepend(done, render(e))
  {
    assert (entries + [e])[..|entries|] == entries;
  }

  /** Once an entry has failed, the whole run fails with that error. */
  lemma {:induction false} ListEntriesErrStays(entries: seq<BlogEntry>, i: nat, render: BlogEntry -> Result<string, Failure>)
    requires i <= |entries| && ListEntries(entries[..i], render).Err?
    ensures ListEntries(entries, render) == ListEntries(entries[..i], render)
    decreases |entries| - i
  {
    if i == |entries| {
      assert entries[..i] == entries;
    } else {
      ListEntriesSnoc(entries[..i], entries[i], render);
      assert entries[..i + 1] == entries[..i] + [entries[i]];
      ListEntriesErrStays(entries, i + 1, render);
    }
  }

  /** The run fails exactly when some entry fails, and then with the error
      of the first entry that fails. */
  lemma {:induction false} ListEntriesFirstFailure(entries: seq<BlogEntry>, render: BlogEntry -> Result<string, Failure>)
    ensures ListEntries(entries, render).Err? <==> exists i :: 0 <= i < |entries| && render(entries[i]).Err?
    ensures ListEntries(entries, render).Err? ==>
      exists i :: 0 <= i < |entries| && render(entries[i]) == Err(ListEntries(entries, render).error)
        && forall j :: 0 <= j < i ==> render(entries[j]).Ok?
    decreases |entries|
  {
    if |entries| > 0 {
      var init, last := entries[..|entries| - 1], entries[|entries| - 1];
      assert entries == init + [last];
      ListEntriesSnoc(init, last, render);
      ListEntriesFirstFailure(init, render);
      if ListEntries(init, render).Err? {
        var i :| 0 <= i < |init| && render(init[i]) == Err(ListEntries(init, render).error)
          && forall j :: 0 <= j < i ==> render(init[j]).Ok?;
        assert entries[i] == init[i];
        assert forall j :: 0 <= j < i ==> entries[j] == init[j];
      } else if render(last).Err? {
        assert forall j :: 0 <= j < |init| ==> entries[j] == init[j];
        assert render(entries[|init|]) == Err(ListEntries(entries, render).error);
      } else {
        forall i | 0 <= i < |entries|
          ensures render(entries[i]).Ok?
        {
          if i < |init| {
            assert entries[i] == init[i];
          }
        }
      }
    }
  }

  /** The entries fail to render through the `blog_entry` fragment exactly
      when there is at least one entry and the fragment uses a placeholder
      other than TITLE, DESCRIPTION, DATE and LINK; the error names such a
      placeholder. */
  lemma ListEntriesFailsIff(entries: seq<BlogEntry>, fragment: string, cal: Calendar, baseUrl: string)
    ensures ListEntries(entries, EntryRenderer(fragment, cal, baseUrl)).Err? <==>
      |entries| > 0 && exists k :: k in Placeholders(fragment) && k !in EntryKeys
    ensures ListEntries(entries, EntryRenderer(fragment, cal, baseUrl)).Err? ==>
      var f := ListEntries(entries, EntryRenderer(fragment, cal, baseUrl)).error;
      f.MissingKey? && f.key in Placeholders(fragment) && f.key !in EntryKeys
  {
    var render := EntryRenderer(fragment, cal, baseUrl);
    ListEntriesFirstFailure(entries, render);
    if |entries| > 0 {
      SubstituteSucceedsIff(fragment, EntryValues(entries[0], cal, baseUrl));
      if ListEntries(entries, render).Err? {
        var i :| 0 <= i < |entries| && render(entries[i]) == Err(ListEntries(entries, render).error);
        SubstituteSucceedsIff(fragment, EntryValues(entries[i], cal, baseUrl));
      }
    }
  }

  /** Rendering keeps the order: the entries of two runs render as those of
      the first run followed by those of the second. */
  lemma {:induction false} ListEntriesConcat(a: seq<BlogEntry>, b: seq<BlogEntry>, render: BlogEntry -> Result<string, Failure>)
    requires ListEntries(a, render).Ok? && ListEntries(b, render).Ok?
    ensures ListEntries(a + b, render) == Ok(ListEntries(a, render).value + ListEntries(b, render).value)
    decreases |b|
  {
    if |b| == 0 {
      assert a + b == a;
      var x := ListEntries(a, render).value;
      assert x + "" == x;
    } else {
      var init, last := b[..|b| - 1], b[|b| - 1];
      assert b == init + [last];
      assert a + b == (a + init) + [last];
      ListEntriesSnoc(init, last, render);
      ListEntriesSnoc(a + init, last, render);
      ListEntriesConcat(a, init, render);
      var x, y, z := ListEntries(a, render).value, ListEntries(init, render).value, render(last).value;
      assert x + y + z == x + (y + z);
    }
  }

  /** The list page fails exactly when the entries fail to render or the
      `blog_list` fragment uses a placeholder other than ENTRIES. */
  lemma BlogListFailsIff(entries: seq<BlogEntry>, fragments: Fragments, cal: Calendar, baseUrl: string)
    ensures BlogListText(entries, fragments, cal, baseUrl).Err? <==>
      || ListEntries(entries, EntryRenderer(fragments.blogEntry, cal, baseUrl)).Err?
      || exists k :: k in Placeholders(fragments.blogList) && k != "ENTRIES"
  {
    var r := ListEntries(entries, EntryRenderer(fragments.blogEntry, cal, baseUrl));
    if r.Ok? {
      var values := map["ENTRIES" := r.value];
      assert values.Keys == {"ENTRIES"};
      SubstituteSucceedsIff(fragments.blogList, values);
    }
  }

  /** `format_blog_list`: each entry is formatted through the `blog_entry`
      fragment and appended, then the result fills the `blog_list`
      fragment. A missing key stops the program; here it is the error. */
  method FormatBlogList(cfg: Config, entries: seq<BlogEntry>, fragments: Fragments, cal: Calendar)
    returns (r: Result<string, Failure>)
    ensures r == BlogListText(entries, fragments, cal, cfg.blogBaseUrl)
  {
    ghost var render := EntryRenderer(fragments.blogEntry, cal, cfg.blogBaseUrl);
    var formatted := "";
    for i := 0 to |entries|
      invariant ListEntries(entries[..i], render) == Ok(formatted)
    {
      var entry := entries[i];
      var values := map["TITLE" := entry.title, "DESCRIPTION" := entry.description,
                         "DATE" := cal.format(entry.date, ListDateFormat), "LINK" := cfg.blogBaseUrl + "/" + entry.urlName];
      assert values == EntryValues(entry, cal, cfg.blogBaseUrl);
      var one := FormatTemplate(fragments.blogEntry, values);
      assert one == render(entry);
      ListEntriesSnoc(entries[..i], entry, render);
      assert entries[..i + 1] == entries[..i] + [entry];
      if one.Err? {
        ListEntriesErrStays(entries, i + 1, render);
        return Err(one.error);
      }
      formatted := formatted + one.value;
    }
    assert entries[..|entries|] == entries;
    r := FormatTemplate(fragments.blogList, map["ENTRIES" := formatted]);
  }

  // ---------------------------------------------------------------------
  // The end of `main`
  // ---------------------------------------------------------------------

  /** The feed document for a feed id (None for the main feed). */
  function FeedRenderer(cfg: Config, entries: seq<BlogEntry>, cal: Calendar, now: string): Option<nat> -> string
  {
    feedId => RssText(cfg, feedId, entries, cal, now)
  }

  /** The documents `feed` gives for the registered feeds among `names`, by
      feed name. */
  function NamedFeeds(ids: map<string, nat>, names: set<string>, feed: Option<nat> -> string): map<string, string>
    requires names <= ids.Keys
  {
    map name | name in names :: feed(Some(ids[name]))
  }

  /** The feed documents by file name without ".rss": "feed" for the main
      feed, then one per registered feed name. A feed named "feed" is
      written after the main feed, so its document is the one kept. */
  function FeedFiles(ids: map<string, nat>, feed: Option<nat> -> string): map<string, string>
  {
    map["feed" := feed(None)] + NamedFeeds(ids, ids.Keys, feed)
  }

  /** Every feed file holds the document of its feed; the main feed's file
      keeps it unless a registered feed is itself named "feed". */
  lemma FeedFilesContents(ids: map<string, nat>, feed: Option<nat> -> string)
    ensures FeedFiles(ids, feed).Keys == ids.Keys + {"feed"}
    ensures forall name :: name in ids ==> FeedFiles(ids, feed)[name] == feed(Some(ids[name]))
    ensures "feed" !in ids ==> FeedFiles(ids, feed)["feed"] == feed(None)
  {
  }

  /** The feeds of `main`: the main feed, then one feed per registered
      name. */
  method WriteFeeds(cfg: Config, cal: Calendar, now: string, entries: seq<BlogEntry>, ids: map<string, nat>)
    returns (feeds: map<string, string>)
    ensures feeds == FeedFiles(ids, FeedRenderer(cfg, entries, cal, now))
  {
    var main := FormatRss(cfg, None, entries, cal, now);
    assert main == FeedRenderer(cfg, entries, cal, now)(None);
    var named := WriteNamedFeeds(cfg, cal, now, entries, ids);
    feeds := map["feed" := main] + named;
  }

  /** One feed per registered name, in an order the model leaves open (the
      program walks a hash map). */
  method WriteNamedFeeds(cfg: Config, cal: Calendar, now: string, entries: seq<BlogEntry>, ids: map<string, nat>)
    returns (named: map<string, string>)
    ensures named == NamedFeeds(ids, ids.Keys, FeedRenderer(cfg, entries, cal, now))
  {
    ghost var feed := FeedRenderer(cfg, entries, cal, now);
    ghost var done: set<string> := {};
    named := map[];
    var remaining := ids.Keys;
    while remaining != {}
      invariant done <= ids.Keys && remaining == ids.Keys - done
      invariant named == NamedFeeds(ids, done, feed)
      decreases remaining
    {
      var name :| name in remaining;
      var rss := FormatRss(cfg, Some(ids[name]), entries, cal, now);
      assert rss == feed(Some(ids[name]));
      named := named[name := rss];
      done := done + {name};
      remaining := remaining - {name};
    }
    assert done == ids.Keys;
  }

  /** The last steps of `main`: sort the entries, write the feeds, then
      build the list page. `now` is the clock reading the feeds carry. */
  method PublishSite(cfg: Config, fragments: Fragments, cal: Calendar, now: string,
                     entries: array<BlogEntry>, ids: map<string, nat>)
    returns (feeds: map<string, string>, listPage: Result<string, Failure>)
    modifies entries
    ensures SortedByDateDescending(entries[..])
    ensures multiset(entries[..]) == multiset(old(entries[..]))
    ensures forall d :: WithDate(entries[..], d) == WithDate(old(entries[..]), d)
    ensures feeds == FeedFiles(ids, FeedRenderer(cfg, entries[..], cal, now))
    ensures listPage == BlogListText(entries[..], fragments, cal, cfg.blogBaseUrl)
  {
    SortByDateDescending(entries);
    feeds := WriteFeeds(cfg, cal, now, entries[..], ids);
    listPage := FormatBlogList(cfg, entries[..], fragments, cal);
  }
}
