/** The records the generator passes between its stages (src/main.rs:
    `BlogEntry`, `Fragments`, `Buffers`, the options it reads from
    `Arguments`), the entry validation of `build_blog_entry`, and the choice
    of date format for page headers and for the list page. */
module Blog {
  import opened Results

  /** An instant in UTC (chrono's `DateTime<Utc>`), ordered by time. */
  type Date = int

  /** The parts of chrono the generator calls, as functions the model does
      not interpret:
      - `parse`: `DateTime::parse_from_str(text, "%d %b %Y %H:%M:%S %z")`,
        converted to UTC, or None when chrono rejects the text;
      - `day`: the day of the month of the UTC date, `date().day()`;
      - `format`: `DateTime::format(date, pattern)`;
      - `rfc2822`: `DateTime::to_rfc2822(date)`. */
  datatype Calendar = Calendar(
    parse: string -> Option<Date>,
    day: Date -> nat,
    format: (Date, string) -> string,
    rfc2822: Date -> string)

  /** One compiled entry: `urlName` is the name of its directory. */
  datatype BlogEntry = BlogEntry(
    urlName: string,
    title: string,
    description: string,
    date: Date,
    additionalFeeds: seq<nat>)

  /** The static fragments, each empty when no fragment directory is given. */
  datatype Fragments = Fragments(
    css: string,
    header: string,
    footer: string,
    blogEntry: string,
    blogList: string)

  /** The command-line options the pages and feeds depend on. `siteName` is
      the Open Graph site name option. */
  datatype Config = Config(
    favicon: Option<string>,
    language: Option<string>,
    opengraphLocale: Option<string>,
    siteName: Option<string>,
    blogBaseUrl: string)

  /** The scratch strings reused from one document to the next. The raw
      markdown input buffer is not part of the model: parsing is foreign. */
  class Buffers {
    var html: string
    var output: string
    var title: string
    var description: string
    var author: string
    var date: string

    constructor ()
      ensures html == "" && output == ""
      ensures title == "" && description == "" && author == "" && date == ""
    {
      html, output := "", "";
      title, description, author, date := "", "", "", "";
    }
  }

  /** `check_error`: an empty attribute is fatal and names the attribute. */
  function CheckPresent(text: string, attribute: string): (r: Result<string, Failure>)
    ensures r.Ok? <==> text != ""
    ensures r.Ok? ==> r.value == text
    ensures r.Err? ==> r.error == MissingAttribute(attribute)
  {
    if text == "" then Err(MissingAttribute(attribute)) else Ok(text)
  }

  /** `build_blog_entry`: checks title, then description, then date (first
      that it is present, then that it parses), and builds the entry from the
      document's metadata. */
  function BuildBlogEntry(
    title: string, description: string, date: string,
    urlName: string, feeds: seq<nat>, parse: string -> Option<Date>): (r: Result<BlogEntry, Failure>)
    ensures r == Err(MissingAttribute("title")) <==> title == ""
    ensures r == Err(MissingAttribute("description")) <==> title != "" && description == ""
    ensures r == Err(MissingAttribute("date")) <==> title != "" && description != "" && date == ""
    ensures r == Err(BadDate(date)) <==> title != "" && description != "" && date != "" && parse(date).None?
    ensures r.Ok? <==> title != "" && description != "" && date != "" && parse(date).Some?
    ensures r.Ok? ==>
      && r.value.urlName == urlName
      && r.value.title == title
      && r.value.description == description
      && r.value.date == parse(date).value
      && r.value.additionalFeeds == feeds
  {
    match CheckPresent(title, "title")
    case Err(f) => Err(f)
    case Ok(t) =>
      match CheckPresent(description, "description")
      case Err(f) => Err(f)
      case Ok(d) =>
        match CheckPresent(date, "date")
        case Err(f) => Err(f)
        case Ok(text) =>
          match parse(text)
          case None => Err(BadDate(text))
          case Some(instant) => Ok(BlogEntry(urlName, t, d, instant, feeds))
  }

  /** The title element, shared by the page head and the RSS channel and items. */
  const TitleOpen := "<title>"
  const TitleClose := "</title>\n"

  /** The date format of the list page, and of page headers after the 3rd. */
  const ListDateFormat := "%A the %eth of %B %Y"

  /** The date format of a page header for a given day of the month: the
      ordinals "1st", "2nd" and "3rd" for the first three days and the
      generic "th" suffix otherwise (so the 21st is written "21th"). */
  function HeaderDateFormat(day: nat): (f: string)
    ensures day == 1 ==> f == "%A the 1st of %B %Y"
    ensures day == 2 ==> f == "%A the 2nd of %B %Y"
    ensures day == 3 ==> f == "%A the 3rd of %B %Y"
    ensures f == ListDateFormat <==> !(1 <= day <= 3)
  {
    match day
    case 1 => "%A the 1st of %B %Y"
    case 2 => "%A the 2nd of %B %Y"
    case 3 => "%A the 3rd of %B %Y"
    case _ => ListDateFormat
  }

  /** The date as a page header shows it. */
  function HeaderDate(cal: Calendar, date: Date): string
  {
    cal.format(date, HeaderDateFormat(cal.day(date)))
  }

  /** The date as the list page shows it: always with the "th" format. */
  function ListDate(cal: Calendar, date: Date): string
  {
    cal.format(date, ListDateFormat)
  }
}
