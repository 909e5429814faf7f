# floc_blog core, modelled in Dafny

floc_blog is a static blog generator. It reads a tree of markdown posts, turns each post into an
HTML page, and writes an RSS feed for the whole blog and one for every additional feed a post
names. It also writes an index page that lists every post, newest first. This project models the
logic of that pipeline without its I/O and proves properties of the model.

- `results.dfy` (module `Results`): `Option`, `Result` and `Failure`. A `Failure` value is a way
  the modelled core stops early. Three of them are `process::exit` calls: a missing template
  key, a missing attribute, and a date that does not parse. The fourth, a comment too short to
  slice, is a panic in the program (src/main.rs:229). The exits on I/O errors are not modelled.
- `text.dfy` (module `Text`): the string helpers the program gets from Rust's `str`. `trim` and
  `find` each come with lemmas stating what they find. `starts_with` and `ends_with` are the
  predicates `StartsWith` and `EndsWith`.
- `template.dfy` (module `Template`): the `$KEY$` engine of `src/template.rs`.
  - `FormatTemplate` is the in-place scanner. It keeps a mutable buffer and an index, and an inner
    loop (`FindClosing`) looks for the closing `$`.
  - It is proved equal to `Substitute`, a recursive left-to-right reading of the same rules.
  - The lemmas state the engine's promises:
    - text without `$` is unchanged;
    - a mapped span is replaced by its value and the surrounding text is kept;
    - a value is never rescanned;
    - `$$` is the empty key;
    - an unclosed `$` is left alone;
    - the scan succeeds exactly when every placeholder is mapped.
- `feeds.dfy` (module `Feeds`): `FeedTracker` is a class with the counter and the name-to-id map.
  `Identify` hands out 0, 1, 2, … in first-seen order. The ids stay distinct and fill the range
  below the counter. `NewNames` lists the names a document registers, in first-seen order.
- `blog.dfy` (module `Blog`): `BlogEntry`, the `Buffers` class, the configuration and fragment
  records, and `BuildBlogEntry` with its ordered attribute checks. It also has the ordinal date
  format of the page header and the fixed format of the list page. Date parsing and formatting
  come from a `Calendar` value.
- `markdown.dfy` (module `Markdown`): the event closure of `process_markdown`.
  - It rewrites `image_description` code fences.
  - It parses `<!--label: value-->` directives, and the last title, description, author or date
    directive wins.
  - Every `additional-feed` directive registers and appends a feed id.
  - `TransformEvents` clears the buffers and walks the events, updating the buffers and the
    tracker in place. The feed names the tracker did not know get the next ids, in first-seen
    order.
- `page.dfy` (module `Page`): the assembly of a post's page.
  - It writes the `<head>` lines in their fixed order, each under its own condition.
  - It adds the templated header with the ordinal date, the rendered body and the footer.
  - `ProcessMarkdown` runs the whole of `process_markdown`.
- `site.dfy` (module `Site`): the end of `main`.
  - It sorts the entries by date, newest first, stably, in an array.
  - `FormatRss` renders one RSS document: the main feed, or one named feed filtered by its id.
  - `WriteFeeds` and `WriteNamedFeeds` build the map from file name to RSS text: `feed` and one
    entry per tracked feed name.
  - `FormatBlogList` writes the list page through the template engine.
  - `PublishSite` strings these together.

## Model

| member | source | states |
|---|---|---|
| Text.IndexOfMeaning | src/main.rs:231 | `find` returns the first position of the character at or after the start, or none when it does not occur there |
| Text.SkipWhitespaceMeaning | src/main.rs:224 | leading whitespace is skipped up to the first non-whitespace character |
| Text.DropTrailingWhitespaceMeaning | src/main.rs:224 | trailing whitespace is dropped back to the last non-whitespace character |
| Text.TrimBoundsMeaning | src/main.rs:224 | `trim` removes only whitespace, and what is kept starts and ends with a non-whitespace character |
| Text.TrimNoOp | src/main.rs:233 | a string without surrounding whitespace is its own trim |
| Text.TrimIdempotent | src/main.rs:224 | trimming twice is trimming once |
| Template.FormatTemplate | src/template.rs:3-43 | the in-place scan with its index ends, and it returns exactly `Substitute(template, values)`: the substituted text, or the missing-key failure at the first unmapped placeholder |
| Template.FindClosing | src/template.rs:13-21 | the inner loop finds the first `$` after the opening one, or reports that none follows |
| Template.SubstitutePlainPrefix | src/template.rs:8-39 | characters before the first `$` are copied unchanged in front of the rest |
| Template.NoDollarUnchanged | src/template.rs:7-40 | a template with no `$` comes back unchanged and has no placeholders |
| Template.SubstitutePlaceholder | src/template.rs:23-35 | a `$…$` span at the front is replaced by its value, followed by the substituted rest, or fails with the missing key |
| Template.SubstituteSpan | src/template.rs:23-34 | `pre$key$post` becomes `pre`, then the value, then the substituted `post`, or fails naming `key` |
| Template.ValueNotRescanned | src/template.rs:33-35 | a placeholder's value appears verbatim, even when it contains `$X$` itself |
| Template.EmptyKey | src/template.rs:24-30 | `$$` looks up the empty key and fails unless `""` is mapped |
| Template.SubstituteUnclosed | src/template.rs:13-22 | a `$` with no later `$` leaves the rest of the text unchanged and succeeds |
| Template.UnclosedDollarUnchanged | src/template.rs:13-39 | text with a single unclosed `$` is returned unchanged without error |
| Template.ScanPlain | src/template.rs:39 | stepping over a non-`$` character keeps the outcome of the scan |
| Template.ScanPlaceholder | src/template.rs:23-35 | replacing the span in the buffer and resuming after the value keeps the outcome; an unmapped key is the outcome |
| Template.ScanUnclosed | src/template.rs:13-39 | an unclosed `$` ends the scan with the buffer as the result |
| Template.SubstituteSucceedsIff | src/template.rs:23-31 | substitution succeeds exactly when every placeholder key is mapped; a failure names an unmapped placeholder key |
| Feeds.FeedTracker.constructor | src/main.rs:42-47 | a new tracker has counter 0 and no names |
| Feeds.FeedTracker.Identify | src/main.rs:49-58 | a known name returns its id and changes nothing; a new name gets the current counter, the counter grows by one, and exactly that mapping is added |
| Feeds.IdsInjective | src/main.rs:49-58 | two names never share an id |
| Feeds.IdsAreDense | src/main.rs:36-58 | the ids in use are exactly 0 up to the counter, exclusive |
| Feeds.FirstSeenOrder | src/main.rs:49-58 | tech, life, tech are given 0, 1, 0 |
| Feeds.NewNames | src/main.rs:49-58 | computes the names of a sequence that the tracker does not know yet, each at its first occurrence, in order: what a run of `identify` calls appends to the first-seen order |
| Feeds.NewNamesSnoc | src/main.rs:50-56 | one more name is new exactly when neither the known names nor the earlier names hold it |
| Feeds.NewNamesMeaning | src/main.rs:49-58 | the new names are exactly the names outside the known ones, each listed once |
| Feeds.FirstSeenInDocument | src/main.rs:256-259 | a document naming tech, life, tech on an empty tracker registers tech and then life, once each |
| Blog.Buffers.constructor | src/main.rs:668-676 | every buffer starts empty |
| Blog.CheckPresent | src/main.rs:144-155 | an attribute passes exactly when it is non-empty, and a failure names the attribute |
| Blog.BuildBlogEntry | src/main.rs:138-180 | it fails on an empty title, then an empty description, then an empty date, then an unparseable date, each exactly when the earlier checks pass; on success it copies the URL name, title, description and feed ids, with the parsed date |
| Blog.HeaderDateFormat | src/main.rs:344-349 | days 1, 2 and 3 get "1st", "2nd" and "3rd"; every other day gets the list page's "%eth" format |
| Markdown.LabelOf | src/main.rs:235-261 | computes the label of a directive name, compared exactly: `title`, `description`, `author`, `date` and `additional-feed` are known, and every other name is `Unknown`; `DirectiveRoundTrip` and `SpacedLabelUnknown` use it |
| Markdown.ParseDirective | src/main.rs:224-233 | computes what an HTML text is: not a directive, a comment too short to slice, or a label and trimmed value split at the first `:`; `ParseNotDirective`, `ParseTooShort`, `ParseDirectiveParts` and `DirectiveRoundTrip` state its properties |
| Markdown.ApplyDirective | src/main.rs:235-261 | computes the effect of one directive: the four text labels overwrite their field, `additional-feed` appends the name, any other label changes nothing; `LastDirectiveWins` and `FeedsAccumulate` state the result of a whole document |
| Markdown.MapEvent | src/main.rs:211-221 | the start and end of an `image_description` fence become the opening and closing div markup; every other event is returned unchanged |
| Markdown.ParseNotDirective | src/main.rs:224-231 | an HTML event is not a directive exactly when its trimmed text is not a `<!--…-->` comment, or the comment body has no `:` |
| Markdown.ParseTooShort | src/main.rs:225-229 | a trimmed comment shorter than 7 characters is the too-short failure |
| Markdown.ParseDirectiveParts | src/main.rs:228-233 | the label is the comment body up to the first `:`, and the value is the trimmed rest |
| Markdown.DirectiveRoundTrip | src/main.rs:224-233 | `<!--name:raw-->` with no `:` in the name parses as label `name` with value `trim(raw)`, so the value may contain `:` |
| Markdown.NoColonNoDirective | src/main.rs:231 | a comment without `:`, the empty comment `<!---->` included, is not a directive |
| Markdown.TrimPadding | src/main.rs:224 | surrounding whitespace is removed down to the first and last non-whitespace characters |
| Markdown.SpacedLabelUnknown | src/main.rs:232-261 | the label is compared untrimmed, so `<!-- title: x-->` is an unknown label |
| Markdown.ShortestCommentTooShort | src/main.rs:225-229 | `<!-->` is the too-short failure |
| Markdown.LastValueCons | src/main.rs:235-254 | the value a list of directives leaves is the value the tail leaves, starting from what the head leaves |
| Markdown.LastDirectiveWins | src/main.rs:235-254 | title, description, author and date each end with the value of their last directive, or keep their start value when there is none |
| Markdown.FeedsAccumulate | src/main.rs:256-259 | every `additional-feed` directive appends its name in order, duplicates included |
| Markdown.ExtractFailsIff | src/main.rs:224-229 | the walk fails exactly when some directive comment is too short, and it fails at the first one |
| Markdown.IdsOfGrow | src/main.rs:256-259 | ids already handed out stay valid as the tracker grows, and a new name appends its id |
| Markdown.RegisterFeed | src/main.rs:256-259 | an `additional-feed` directive identifies its name and appends the id; the tracker's first-seen order gains the name exactly when it is new |
| Markdown.VisitEvent | src/main.rs:210-268 | one event updates the buffers and the feed list as its directive says, registers feed names with the tracker, and returns the mapped event or the failure |
| Markdown.VisitEvents | src/main.rs:210-271 | from cleared buffers, the events in order give the metadata of `Extract`, the mapped events, and a tracker that appended the new feed names in first-seen order; the first failure stops the walk |
| Markdown.TransformEvents | src/main.rs:199-271 | after the buffers are cleared and all events are walked, each buffer holds the value of its last directive, the feed ids are those of the `additional-feed` names in order, and the events are mapped. The tracker's new names are `NewNames` of the feed names: the k-th gets the old counter plus k, and the counter grows by their number. Otherwise it returns the first failure |
| Page.RankedAppend | src/main.rs:284-339 | appending an optional line of the next rank keeps the lines in head order |
| Page.SlotsOrdered | src/main.rs:284-339 | eight optional lines of ranks 0 to 7 come out in rank order |
| Page.HeadLinesOrdered | src/main.rs:284-339 | the head lines are written in the fixed order: title, favicon link, description metas, og:image, author, locale, site name, style |
| Page.OptMember | src/main.rs:284-339 | an optional line is present exactly when its condition holds |
| Page.SlotMembers | src/main.rs:284-339 | a line is in the head exactly when its slot's condition holds |
| Page.HeadLinesMembers | src/main.rs:284-339 | the title, description, author and style lines are present exactly when their text is non-empty |
| Page.HeadFaviconMembers | src/main.rs:287-312 | the favicon link and the og:image meta are both present exactly when a favicon is configured |
| Page.HeadOpenGraphMembers | src/main.rs:320-333 | the og:locale and og:site_name metas are present exactly when configured |
| Page.HeadTextSnoc | src/main.rs:284-339 | writing one more line appends its markup |
| Page.StepText | src/main.rs:284-339 | an optional write appends that line's markup exactly when its condition holds |
| Page.StyleStep | src/main.rs:335-339 | the three pushes of the style block are one optional line, present when the CSS is non-empty |
| Page.TwoSteps | src/main.rs:284-305 | two optional writes append their lines in order |
| Page.FourSteps | src/main.rs:306-339 | four optional writes append their lines in order |
| Page.FirstFourSteps | src/main.rs:284-312 | the first four optional writes append their lines in order |
| Page.SlotsWrittenText | src/main.rs:284-339 | the eight optional writes append the markup of exactly the present lines, in order |
| Page.HeadWrittenText | src/main.rs:284-339 | the head writes append the markup of the ordered head lines |
| Page.RenderHeadLine | src/main.rs:284-339 | computes the markup of one head line, as each `writeln!` of the head writes it; `WriteHeadLines` and `HeadWrittenText` use it |
| Page.WriteLanguage | src/main.rs:277-279 | computes the output followed by the `<html lang=...>` line when a language is configured |
| Page.HeadPart | src/main.rs:275-341 | computes the page text up to `</head>` and a blank line: doctype, optional language line, head opening with the charset meta, the head lines, the closing tag; `PageShape` and `DocumentSucceeds` state that a page starts with it |
| Page.WriteHeadLines | src/main.rs:284-339 | the output buffer gains exactly the head writes, under their conditions and in their order |
| Page.PageFailsIff | src/main.rs:343-361 | a page fails exactly when the header fragment is non-empty and has a placeholder other than TITLE, DESCRIPTION and DATE, and the failure names such a key |
| Page.PageShape | src/main.rs:275-368 | the page starts with the doctype, language and head; the body follows directly when there is no header; it ends with the body, or with a blank line and the footer |
| Page.AssemblePage | src/main.rs:275-368 | the output buffer is rebuilt as the page of the current buffers, or the header's template failure is returned |
| Page.MetadataOfDocument | src/main.rs:199-268 | from cleared buffers, each of title, description, author and date is its last directive's value or empty, and the feed names are all `additional-feed` values in order |
| Page.DocumentChecksAttributesFirst | src/main.rs:157-171 | the attribute and date checks run before any page is built, in the source's order |
| Page.DocumentSucceeds | src/main.rs:273-370 | a successful document gives the entry of its metadata; its head has the title and description lines, and the page starts with that head |
| Page.ProcessMarkdown | src/main.rs:182-371 | the events are transformed, the body rendered, the entry built and the page written to the output buffer; a failure stops it. The title, description, author and date buffers hold the document's metadata, and the tracker's new names get the next ids in first-seen order |
| Site.WithDateMember | src/main.rs:724 | the entries of a given date are exactly the members with that date |
| Site.WithDateConcat | src/main.rs:724 | the entries of a date in a concatenation are those of each part, in order |
| Site.SwapKeepsWithDate | src/main.rs:724 | swapping neighbours of different dates keeps the order among entries of each date |
| Site.FirstIsLatest | src/main.rs:724 | in a list sorted newest first, the first entry is the latest |
| Site.SameFirst | src/main.rs:724 | two lists sorted newest first with the same entries per date start with the same entry |
| Site.SameTailAt | src/main.rs:724 | with the same first entry, equal entries of one date stay equal once that entry is dropped |
| Site.SameTails | src/main.rs:724 | the same, for every date at once |
| Site.SortedUnique | src/main.rs:724 | two lists sorted newest first with the same entries per date, in the same order, are equal, so any stable descending sort gives this result |
| Site.InsertSwap | src/main.rs:724 | one swap of a newer entry past an older one keeps the entries of each date in order |
| Site.InsertDone | src/main.rs:724 | an entry stops in front of one no newer than itself, and the prefix is then sorted |
| Site.SortByDateDescending | src/main.rs:724 | the array ends sorted newest first, as a permutation of the input, with entries of equal date in their input order |
| Site.SelectedSnoc | src/main.rs:534-539 | one more entry is kept exactly when it belongs to the feed |
| Site.ItemsTextSnoc | src/main.rs:541-557 | one more item appends its text |
| Site.ItemsStep | src/main.rs:534-557 | one loop step appends the entry's item exactly when the entry belongs to the feed |
| Site.ItemText | src/main.rs:541-557 | computes one RSS item: inside `<item>`, the title, description, RFC 2822 date and the link (base URL, `/`, URL name), each on its own tab-indented line |
| Site.RssHead | src/main.rs:563-581 | computes the RSS document up to the items: XML declaration, generator comment with the time and version, `rss` and `channel` openings, the language (`en_US` when none is configured), the site name as title, and the generator |
| Site.FormatRss | src/main.rs:530-584 | the loop writes the channel head, then the items of exactly the selected entries in input order, then the channel close |
| Site.MainFeedListsAll | src/main.rs:534-539 | the main feed keeps every entry in input order |
| Site.FeedListsIff | src/main.rs:534-539 | a named feed keeps exactly the entries whose additional feeds hold its id |
| Site.SelectedConcat | src/main.rs:534-539 | filtering distributes over concatenation, so the order is kept |
| Site.SelectedWithin | src/main.rs:534-539 | every selected entry is an input entry that belongs to the feed |
| Site.SelectedSorted | src/main.rs:724-728 | a feed of sorted entries is sorted newest first |
| Site.ItemsTextConcat | src/main.rs:541-557 | the items of a concatenation are the items of each part |
| Site.MainFeedText | src/main.rs:530-584 | the main feed holds the item of every entry |
| Site.EntryValues | src/main.rs:595-602 | each list entry offers exactly TITLE, DESCRIPTION, DATE and LINK |
| Site.ListEntriesSnoc | src/main.rs:594-606 | one more entry appends its formatted text, or an earlier failure stays |
| Site.ListEntriesErrStays | src/main.rs:604 | a failure in the first entries is the failure of the whole list |
| Site.ListEntriesFirstFailure | src/main.rs:594-606 | the list fails exactly when some entry fails, and with the failure of the first failing entry |
| Site.ListEntriesFailsIff | src/main.rs:594-606 | the entries fail exactly when there is at least one entry and the entry fragment has a key other than the four offered; the failure names such a key |
| Site.ListEntriesConcat | src/main.rs:594-607 | the formatted entries of a concatenation are those of each part, joined |
| Site.BlogListFailsIff | src/main.rs:586-614 | the list page fails exactly when an entry fails or the list fragment has a key other than ENTRIES |
| Site.FormatBlogList | src/main.rs:586-614 | the loop formats every entry through the template engine, stops at the first failure, and puts the joined entries into the list fragment |
| Site.FeedFilesContents | src/main.rs:726-729 | there is one file per feed name plus `feed`; each named feed holds its filtered RSS; `feed` holds the main feed unless a feed of that name overwrote it |
| Site.WriteFeeds | src/main.rs:726-729 | the main feed and one feed per tracked name are written |
| Site.WriteNamedFeeds | src/main.rs:727-729 | the loop over the tracker's names, in any order, writes each name's filtered feed |
| Site.PublishSite | src/main.rs:724-732 | the entries end sorted newest first (stably, as a permutation); the feeds and the list page are produced from the sorted entries |

## Left out

- pulldown_cmark: the parser's event stream is the input sequence `Event` (only fences, HTML and
  other events are told apart). `html::push_html` is the parameter `render`, because it is a
  foreign library.
- chrono:
  - `parse_from_str`, `day`, `format` and `to_rfc2822` are the function fields of a `Calendar`
    value, and dates are integers ordered like instants;
  - `Utc::now()` is a parameter `now`, and one value serves every feed of a run;
  - this is because the library is foreign and the clock is nondeterministic.
- File I/O is not modelled:
  - fragment loading (src/main.rs:80-124) gives a `Fragments` value;
  - `process_file`, the directory walks of `process_dir` and `main`, `remove_dir_all`, and the
    writes of the HTML, RSS and index files are left out;
  - the written files appear as results: the output buffer, a map from feed name to RSS text,
    and the list page.
- src/arguments.rs (command-line parsing) is not part of this model. Its result is the `Config`
  record. `opengraph_sitename` (src/main.rs:327, 578) and the declared `opengraph_site_name` are
  one optional site name.
- `process::exit` is a `Failure` result. Error messages on stderr are not modelled.
- `<!-->` and other trimmed comments shorter than 7 bytes make the source's slice underflow and
  panic. The model returns the `CommentTooShort` failure instead.
- Feeds.FeedTracker.Identify: the `u32` counter is a `nat`, so wrap-around after 2^32 feed names
  is not modelled.
- Site.WriteNamedFeeds: the feeds are written in HashMap order, which is unspecified. The model
  picks names in any order and states only the resulting map. A feed named `feed` overwrites
  the main `feed.rss`, as in the source.
- Site.SortByDateDescending: Rust's `sort_by` (a merge sort) is an insertion sort of neighbour
  swaps here. `Site.SortedUnique` shows that every stable descending sort gives the same array.
- Text is `seq<char>`, while the source indexes bytes. Every delimiter it looks for (`$`,
  `<!--`, `-->`, `:`) is ASCII, so character and byte scans stop at the same places.
- Page head order: the og:image meta is written after the description metas, not next to the
  favicon link (src/main.rs:306-312), and the model follows the code.
