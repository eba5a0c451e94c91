/**
 * The pure rules inside the coronavirus-stats cog: how a statistics field
 * is extended, how pages become footered embeds, how the all-countries
 * listing is built, which country a `countrystats` argument selects, and
 * which records `globalstats` reports for an optional date.
 *
 * Embeds are reduced to plain records; the chart image, colours and the
 * reaction menu are not modelled. Library formatters and the date parser
 * arrive as function values (`Formatter`, `Parser`).
 */
module CoronavirusStats {
  import opened Common
  import opened Text
  import opened ChatFormatting
  import opened DateParsing

  // ---------------------------------------------------------------------------
  // Data delivered by the statistics service
  // ---------------------------------------------------------------------------

  /** One time-series record: its `date` text and its numeric keys (`confirmed`, `new_confirmed`, ...). */
  datatype Record = Record(date: string, counts: map<string, int>)

  /** One country entry: `name`, `code`, `latest_data['confirmed']`, and `timeline` when present. */
  datatype Country = Country(name: string, code: string, latestConfirmed: int, timeline: Option<seq<Record>>)

  /** What `add_stats_field` receives as `data`: one record (a dict) or a list of records. */
  datatype StatsData = OneRecord(record: Record) | RecordList(records: seq<Record>)

  /**
   * Python's `key in data`. For a dict it is key membership; for a list it is
   * element membership, and the elements are records, never strings.
   */
  predicate HasKey(data: StatsData, key: string)
  {
    data.OneRecord? && key in data.record.counts
  }

  function Count(data: StatsData, key: string): int
    requires HasKey(data, key)
  {
    data.record.counts[key]
  }

  /**
   * Python truthiness of `current_day_data`: a list is true when non-empty;
   * a record dict always holds at least its `date` key.
   */
  predicate Truthy(data: StatsData)
  {
    data.OneRecord? || |data.records| > 0
  }

  // ---------------------------------------------------------------------------
  // Embeds
  // ---------------------------------------------------------------------------

  datatype Field = Field(name: string, value: string, inline: bool)

  /** An embed without its colour and image; `""` stands for an absent description. */
  datatype Embed = Embed(title: string, description: string, fields: seq<Field>, footer: Option<string>)

  // ---------------------------------------------------------------------------
  // add_stats_field
  // ---------------------------------------------------------------------------

  /** The text appended for a present key: a bullet, the underlined label, the humanized count. */
  function StatLine(fmt: Formatter, shownName: string, count: int): string
  {
    "\n•" + fmt.underline(shownName) + " : " + fmt.humanizeNumber(count)
  }

  /** The text appended for a present increment: the bold humanized increment in `(+...)`. */
  function IncrementSuffix(fmt: Formatter, increment: int): string
  {
    "(+" + fmt.bold(fmt.humanizeNumber(increment)) + ")"
  }

  /** `increment_key and increment_key in data`: given, non-empty, and present. */
  predicate IncrementPresent(data: StatsData, incrementKey: Option<string>)
  {
    incrementKey.Some? && incrementKey.value != "" && HasKey(data, incrementKey.value)
  }

  /**
   * `add_stats_field`: when `key` is present, the field at `index` keeps its
   * name, becomes inline, and its value gains the stat line followed, when
   * the increment is present too, by the increment suffix. Otherwise the
   * fields are untouched. No other field changes.
   */
  function AddStatsField(fields: seq<Field>, index: nat, data: StatsData, key: string, shownName: string,
                         incrementKey: Option<string>, fmt: Formatter): (result: seq<Field>)
    requires index < |fields|
    ensures |result| == |fields|
    ensures forall j :: 0 <= j < |fields| && j != index ==> result[j] == fields[j]
    ensures !HasKey(data, key) ==> result == fields
    ensures HasKey(data, key) ==>
      && result[index].name == fields[index].name
      && result[index].inline
      && fields[index].value + StatLine(fmt, shownName, Count(data, key)) <= result[index].value
    ensures HasKey(data, key) ==>
      result[index].value ==
        fields[index].value + StatLine(fmt, shownName, Count(data, key))
        + (if IncrementPresent(data, incrementKey) then IncrementSuffix(fmt, Count(data, incrementKey.value)) else "")
  {
    var name := fields[index].name;
    var value := fields[index].value;
    if HasKey(data, key) then
      var updated := value + StatLine(fmt, shownName, Count(data, key));
      var updated := if IncrementPresent(data, incrementKey)
        then updated + IncrementSuffix(fmt, Count(data, incrementKey.value))
        else updated;
      fields[index := Field(name, updated, true)]
    else
      fields
  }

  /**
   * The increment suffix follows the stat line exactly when the increment
   * key is given, non-empty and present (and the main key is present).
   */
  lemma IncrementSuffixIff(fields: seq<Field>, index: nat, data: StatsData, key: string, shownName: string,
                           incrementKey: Option<string>, fmt: Formatter)
    requires index < |fields|
    requires HasKey(data, key)
    ensures var result := AddStatsField(fields, index, data, key, shownName, incrementKey, fmt);
      var line := fields[index].value + StatLine(fmt, shownName, Count(data, key));
      && (IncrementPresent(data, incrementKey) <==> |result[index].value| > |line|)
      && (IncrementPresent(data, incrementKey) ==>
            result[index].value == line + IncrementSuffix(fmt, Count(data, incrementKey.value)))
  {
  }

  /** The three `add_stats_field` calls that fill the "Overall stats" field. */
  function StatsFields(data: StatsData, fmt: Formatter): (fields: seq<Field>)
    ensures |fields| == 1 && fields[0].name == OverallStats
  {
    var fields := [Field(OverallStats, "", true)];
    var fields := AddStatsField(fields, 0, data, "confirmed", "Total cases", Some("new_confirmed"), fmt);
    var fields := AddStatsField(fields, 0, data, "deaths", "Total deaths", Some("new_deaths"), fmt);
    AddStatsField(fields, 0, data, "recovered", "Total recovered", Some("new_recovered"), fmt)
  }

  const OverallStats := "Overall stats"

  /** The field shown when there is nothing to report. */
  function NoDataField(fmt: Formatter): Field
  {
    Field(OverallStats, fmt.info("No data found for the current day."), true)
  }

  // ---------------------------------------------------------------------------
  // embed_pages
  // ---------------------------------------------------------------------------

  /** `list.index`: the position of the first element equal to `x`. */
  function FirstIndex<T(==)>(s: seq<T>, x: T): (i: nat)
    requires x in s
    ensures i < |s| && s[i] == x
    ensures forall j :: 0 <= j < i ==> s[j] != x
  {
    if s[0] == x then 0 else 1 + FirstIndex(s[1..], x)
  }

  /** `f"Page {number}/{count}"` */
  function Footer(number: nat, count: nat): string
  {
    "Page " + NatToString(number) + "/" + NatToString(count)
  }

  /** The embed `embed_pages` builds for the page at position `k`. */
  function PageEmbed(pages: seq<string>, k: nat, title: string, description: string, fmt: Formatter): Embed
    requires k < |pages|
  {
    Embed(title, description + fmt.box(pages[k]), [], Some(Footer(FirstIndex(pages, pages[k]) + 1, |pages|)))
  }

  /** The loop of `embed_pages` from position `from` on. */
  function PageEmbedsFrom(pages: seq<string>, from: nat, title: string, description: string, fmt: Formatter)
    : (embeds: seq<Embed>)
    requires from <= |pages|
    ensures |embeds| == |pages| - from
    ensures forall k :: 0 <= k < |embeds| ==> embeds[k] == PageEmbed(pages, from + k, title, description, fmt)
    decreases |pages| - from
  {
    if from == |pages| then []
    else [PageEmbed(pages, from, title, description, fmt)] + PageEmbedsFrom(pages, from + 1, title, description, fmt)
  }

  /**
   * `embed_pages`: one embed per page, in page order, each titled `title`,
   * described by `description` followed by the boxed page, and footed
   * "Page i/n" where i is one more than the position of the first page equal
   * to it. The `setPageFooter` flag is never read.
   */
  function EmbedPages(pages: seq<string>, title: string, description: string, setPageFooter: bool, fmt: Formatter)
    : (embeds: seq<Embed>)
    ensures |embeds| == |pages|
    ensures forall k :: 0 <= k < |pages| ==>
      && embeds[k].title == title
      && embeds[k].description == description + fmt.box(pages[k])
      && embeds[k].fields == []
      && embeds[k].footer == Some(Footer(FirstIndex(pages, pages[k]) + 1, |pages|))
  {
    PageEmbedsFrom(pages, 0, title, description, fmt)
  }

  /** When no two pages are equal, the page at position k is footed "Page k+1/n". */
  lemma DistinctPagesNumberedInOrder(pages: seq<string>, title: string, description: string, setPageFooter: bool,
                                     fmt: Formatter, k: nat)
    requires forall i, j :: 0 <= i < j < |pages| ==> pages[i] != pages[j]
    requires k < |pages|
    ensures EmbedPages(pages, title, description, setPageFooter, fmt)[k].footer == Some(Footer(k + 1, |pages|))
  {
    var embeds := EmbedPages(pages, title, description, setPageFooter, fmt);
    var i := FirstIndex(pages, pages[k]);
    assert embeds[k].footer == Some(Footer(i + 1, |pages|));
    assert i == k;
  }

  /** Equal pages get equal embeds, footer number included. */
  lemma EqualPagesShareFooter(pages: seq<string>, title: string, description: string, setPageFooter: bool,
                              fmt: Formatter, i: nat, j: nat)
    requires i < |pages| && j < |pages| && pages[i] == pages[j]
    ensures EmbedPages(pages, title, description, setPageFooter, fmt)[i]
         == EmbedPages(pages, title, description, setPageFooter, fmt)[j]
  {
    var embeds := PageEmbedsFrom(pages, 0, title, description, fmt);
    assert embeds[i] == PageEmbed(pages, i, title, description, fmt);
    assert embeds[j] == PageEmbed(pages, j, title, description, fmt);
  }

  /** Two identical pages are both footed "Page 1/2". */
  lemma DuplicatePagesExample(title: string, description: string, fmt: Formatter)
    ensures var embeds := EmbedPages(["x", "x"], title, description, true, fmt);
      embeds[0].footer == embeds[1].footer == Some("Page 1/2")
  {
    var pages := ["x", "x"];
    assert FirstIndex(pages, pages[1]) == 0;
    assert DigitChar(1) == '1' && DigitChar(2) == '2';
    assert NatToString(1) == "1" && NatToString(2) == "2";
    assert Footer(1, 2) == "Page 1/2";
  }

  /** The footer flag changes nothing. */
  lemma FooterFlagIgnored(pages: seq<string>, title: string, description: string, fmt: Formatter)
    ensures EmbedPages(pages, title, description, true, fmt) == EmbedPages(pages, title, description, false, fmt)
  {
  }

  // ---------------------------------------------------------------------------
  // all_country_pages
  // ---------------------------------------------------------------------------

  /** `pagify`'s page length for the listing. */
  const PageLength: nat := 1500

  /** `f"{name}({code}) : {humanize_number(confirmed)}"` */
  function CountryLine(country: Country, fmt: Formatter): string
  {
    country.name + "(" + country.code + ") : " + fmt.humanizeNumber(country.latestConfirmed)
  }

  /** The loop of `all_country_pages`: one line per country, appended in order. */
  function CountryLines(countries: seq<Country>, fmt: Formatter): (lines: seq<string>)
    ensures |lines| == |countries|
    ensures forall i :: 0 <= i < |countries| ==> lines[i] == CountryLine(countries[i], fmt)
  {
    if |countries| == 0 then []
    else CountryLines(countries[..|countries| - 1], fmt) + [CountryLine(countries[|countries| - 1], fmt)]
  }

  /** The text handed to `pagify`: the lines joined with newlines. */
  function CountryListing(countries: seq<Country>, fmt: Formatter): string
  {
    Join('\n', CountryLines(countries, fmt))
  }

  /** `all_country_pages` */
  function AllCountryPages(countries: seq<Country>, fmt: Formatter): seq<string>
  {
    fmt.pagify(CountryListing(countries, fmt), PageLength)
  }

  /**
   * The listing holds exactly one line per country, in input order: cutting
   * it at newlines gives back `name(code) : confirmed` for each country,
   * provided no line itself contains a newline.
   */
  lemma CountryListingLines(countries: seq<Country>, fmt: Formatter)
    requires |countries| > 0
    requires forall i :: 0 <= i < |countries| ==> '\n' !in CountryLine(countries[i], fmt)
    ensures |Split(CountryListing(countries, fmt), '\n')| == |countries|
    ensures forall i :: 0 <= i < |countries| ==>
      Split(CountryListing(countries, fmt), '\n')[i] == CountryLine(countries[i], fmt)
  {
    SplitJoin('\n', CountryLines(countries, fmt));
  }

  /** With no countries the listing is empty. */
  lemma EmptyListing(fmt: Formatter)
    ensures CountryListing([], fmt) == ""
  {
  }

  // ---------------------------------------------------------------------------
  // countrystats
  // ---------------------------------------------------------------------------

  /** The replies of the two commands. */
  datatype Reply =
    | InvalidDate
    | InvalidCountry
    /** The paginated menu of embeds. */
    | Menu(embeds: seq<Embed>)
    /** One embed (the chart attached to it is not modelled). */
    | Single(embed: Embed)

  const MenuTitle := "Global Coronavirus stats"

  const MenuDescription :=
    "you didn't specify any country. Here are the stats for each affected country\n"
    + "You can use the following controls to move through pages\n"
    + "\U{27A1}\U{FE0F} : **next page**\n"
    + "\U{2B05}\U{FE0F} : **previous page**\n"
    + "\U{274C} : **close all pages**"

  /** `data['name'].upper() == country.upper() or data['code'].upper() == country.upper()` */
  predicate Matches(country: Country, argument: string)
  {
    Upper(country.name) == Upper(argument) || Upper(country.code) == Upper(argument)
  }

  /** The upper-cased names of all countries followed by their upper-cased codes. */
  function UpperNamesAndCodes(countries: seq<Country>): seq<string>
  {
    seq(|countries|, i requires 0 <= i < |countries| => Upper(countries[i].name))
    + seq(|countries|, i requires 0 <= i < |countries| => Upper(countries[i].code))
  }

  /** `country.upper() in countries`, the validity check. */
  predicate Listed(countries: seq<Country>, argument: string)
  {
    Upper(argument) in UpperNamesAndCodes(countries)
  }

  /** The selection loop: the position of the first country the argument matches. */
  function FindCountry(countries: seq<Country>, argument: string): (found: Option<nat>)
    ensures found.Some? ==>
      && found.value < |countries|
      && Matches(countries[found.value], argument)
      && forall j :: 0 <= j < found.value ==> !Matches(countries[j], argument)
    ensures found.None? ==> forall j :: 0 <= j < |countries| ==> !Matches(countries[j], argument)
  {
    if |countries| == 0 then None
    else if Matches(countries[0], argument) then Some(0)
    else match FindCountry(countries[1..], argument)
      case None => None
      case Some(k) => Some(k + 1)
  }

  /** The validity check passes exactly when the selection loop finds a country. */
  lemma ListedIffFound(countries: seq<Country>, argument: string)
    ensures Listed(countries, argument) <==> FindCountry(countries, argument).Some?
  {
    var names := UpperNamesAndCodes(countries);
    var n := |countries|;
    if Listed(countries, argument) {
      var i :| 0 <= i < |names| && names[i] == Upper(argument);
      if i < n {
        assert Matches(countries[i], argument);
      } else {
        assert Matches(countries[i - n], argument);
      }
    }
    match FindCountry(countries, argument)
    case None =>
    case Some(k) =>
      if Upper(countries[k].name) == Upper(argument) {
        assert names[k] == Upper(argument);
      } else {
        assert names[n + k] == Upper(argument);
      }
  }

  /** `timeline[0]` of the selected country raises on an empty timeline. */
  predicate TimelineReadable(countries: seq<Country>, argument: Option<string>)
  {
    argument.Some? ==>
      match FindCountry(countries, argument.value)
      case None => true
      case Some(k) => countries[k].timeline.Some? ==> |countries[k].timeline.value| > 0
  }

  function CountryTitle(country: Country): string
  {
    country.name + " Coronavirus Stats"
  }

  /**
   * `countrystats`: without an argument, the menu of all-country pages; with
   * one, the invalid-country reply when nothing matches, otherwise the first
   * matching country's statistics from the head of its timeline, or the
   * no-data field when it has no timeline.
   */
  function CountryStats(countries: seq<Country>, argument: Option<string>, fmt: Formatter): (reply: Reply)
    requires TimelineReadable(countries, argument)
    ensures argument.None? ==>
      reply == Menu(EmbedPages(AllCountryPages(countries, fmt), MenuTitle, MenuDescription, true, fmt))
    ensures argument.Some? ==>
      (reply == InvalidCountry <==> forall j :: 0 <= j < |countries| ==> !Matches(countries[j], argument.value))
  {
    if argument.None? then
      Menu(EmbedPages(AllCountryPages(countries, fmt), MenuTitle, MenuDescription, true, fmt))
    else if !Listed(countries, argument.value) then
      ListedIffFound(countries, argument.value);
      InvalidCountry
    else
      ListedIffFound(countries, argument.value);
      var country := countries[FindCountry(countries, argument.value).value];
      match country.timeline
      case None => Single(Embed(CountryTitle(country), "", [NoDataField(fmt)], None))
      case Some(timeline) => Single(Embed(CountryTitle(country), "", StatsFields(OneRecord(timeline[0]), fmt), None))
  }

  /** The selection depends on the argument only through its upper-cased form. */
  lemma {:induction false} FindCountryUpperOnly(countries: seq<Country>, a: string, b: string)
    requires Upper(a) == Upper(b)
    ensures FindCountry(countries, a) == FindCountry(countries, b)
  {
    if |countries| > 0 {
      FindCountryUpperOnly(countries[1..], a, b);
    }
  }

  /** Arguments equal up to case get the same reply. */
  lemma CountryStatsCaseInsensitive(countries: seq<Country>, a: string, b: string, fmt: Formatter)
    requires Upper(a) == Upper(b)
    requires TimelineReadable(countries, Some(a))
    ensures TimelineReadable(countries, Some(b))
    ensures CountryStats(countries, Some(a), fmt) == CountryStats(countries, Some(b), fmt)
  {
    FindCountryUpperOnly(countries, a, b);
  }

  /** In particular, the lower-cased argument gets the same reply as the argument itself. */
  lemma CountryStatsLowerCase(countries: seq<Country>, a: string, fmt: Formatter)
    requires TimelineReadable(countries, Some(a))
    ensures TimelineReadable(countries, Some(Lower(a)))
    ensures CountryStats(countries, Some(Lower(a)), fmt) == CountryStats(countries, Some(a), fmt)
  {
    UpperOfLower(a);
    CountryStatsCaseInsensitive(countries, a, Lower(a), fmt);
  }

  /**
   * A matched country's reply: titled after the first matching country,
   * holding the no-data field when it has no timeline and otherwise the
   * statistics of its first timeline record.
   */
  lemma CountryStatsSelected(countries: seq<Country>, argument: string, fmt: Formatter, k: nat)
    requires TimelineReadable(countries, Some(argument))
    requires k < |countries| && Matches(countries[k], argument)
    requires forall j :: 0 <= j < k ==> !Matches(countries[j], argument)
    ensures var reply := CountryStats(countries, Some(argument), fmt);
      && reply.Single?
      && reply.embed.title == CountryTitle(countries[k])
      && (countries[k].timeline.None? ==> reply.embed.fields == [NoDataField(fmt)])
      && (countries[k].timeline.Some? ==>
            && |countries[k].timeline.value| > 0
            && reply.embed.fields == StatsFields(OneRecord(countries[k].timeline.value[0]), fmt))
  {
    FoundFirstMatch(countries, argument, k);
    ListedIffFound(countries, argument);
  }

  lemma FoundFirstMatch(countries: seq<Country>, argument: string, k: nat)
    requires k < |countries| && Matches(countries[k], argument)
    requires forall j :: 0 <= j < k ==> !Matches(countries[j], argument)
    ensures FindCountry(countries, argument) == Some(k)
  {
    var found := FindCountry(countries, argument);
    assert found.Some?;
    assert !(found.value < k);
  }

  // ---------------------------------------------------------------------------
  // globalstats
  // ---------------------------------------------------------------------------

  const GlobalTitle := "Global Coronavirus Stats"

  /** `not date`: no argument, or an empty one. */
  predicate NoDate(date: Option<string>)
  {
    date.None? || date.value == ""
  }

  /** Every record's `date` parses (a failure there is not caught). */
  predicate DatesParse(records: seq<Record>, parse: Parser)
  {
    forall i :: 0 <= i < |records| ==> parse(records[i].date).Some?
  }

  /** Whether a record's parsed date falls on calendar day `day`. */
  predicate OnDay(r: Record, day: int, parse: Parser)
    requires parse(r.date).Some?
  {
    parse(r.date).value.Date() == day
  }

  /**
   * The list comprehension of `globalstats`: the records on calendar day
   * `day`, each as often as it occurs and in the original order. What it
   * keeps is stated by the lemmas after it.
   */
  function SameDay(records: seq<Record>, day: int, parse: Parser): (selected: seq<Record>)
    requires DatesParse(records, parse)
    ensures |selected| <= |records|
  {
    if |records| == 0 then []
    else
      var rest := SameDay(records[1..], day, parse);
      if OnDay(records[0], day, parse) then [records[0]] + rest else rest
  }

  /** A record is selected exactly when it is one of the records and falls on the day. */
  lemma {:induction false} SameDayMembers(records: seq<Record>, day: int, parse: Parser, r: Record)
    requires DatesParse(records, parse)
    ensures r in SameDay(records, day, parse) <==> r in records && OnDay(r, day, parse)
  {
    if |records| > 0 {
      var head, tail := records[0], records[1..];
      assert records == [head] + tail;
      SameDayMembers(tail, day, parse, r);
    }
  }

  /** With every record on another day, nothing is selected. */
  lemma {:induction false} SameDayNone(records: seq<Record>, day: int, parse: Parser)
    requires DatesParse(records, parse)
    requires forall i :: 0 <= i < |records| ==> !OnDay(records[i], day, parse)
    ensures SameDay(records, day, parse) == []
  {
    if |records| > 0 {
      SameDayNone(records[1..], day, parse);
    }
  }

  /** Each record on the day is kept as often as it occurs; any other record is dropped. */
  lemma {:induction false} SameDayCounts(records: seq<Record>, day: int, parse: Parser, r: Record)
    requires DatesParse(records, parse)
    requires r in records
    ensures multiset(SameDay(records, day, parse))[r] == if OnDay(r, day, parse) then multiset(records)[r] else 0
  {
    var head, tail := records[0], records[1..];
    assert records == [head] + tail;
    var rest := SameDay(tail, day, parse);
    if r in tail {
      SameDayCounts(tail, day, parse, r);
    } else {
      SameDayMembers(tail, day, parse, r);
      assert multiset(rest)[r] == 0;
    }
    if OnDay(head, day, parse) {
      assert SameDay(records, day, parse) == [head] + rest;
    }
  }

  /** The selection of a concatenation is the concatenation of the selections: order is kept. */
  lemma {:induction false} SameDayAppend(xs: seq<Record>, ys: seq<Record>, day: int, parse: Parser)
    requires DatesParse(xs, parse) && DatesParse(ys, parse)
    ensures DatesParse(xs + ys, parse)
    ensures SameDay(xs + ys, day, parse) == SameDay(xs, day, parse) + SameDay(ys, day, parse)
  {
    DatesParseAppend(xs, ys, parse);
    if |xs| > 0 {
      var head, tail := xs[0], xs[1..];
      assert parse(head.date).Some? && DatesParse(tail, parse);
      SameDayAppend(tail, ys, day, parse);
      ConsAppend(xs, ys);
      SameDayCons(head, tail, day, parse);
      SameDayCons(head, tail + ys, day, parse);
    } else {
      assert xs + ys == ys;
    }
  }

  lemma ConsAppend<T>(xs: seq<T>, ys: seq<T>)
    requires |xs| > 0
    ensures xs == [xs[0]] + xs[1..]
    ensures xs + ys == [xs[0]] + (xs[1..] + ys)
  {
  }

  /** One unfolding step of the selection. */
  lemma SameDayCons(r: Record, rest: seq<Record>, day: int, parse: Parser)
    requires parse(r.date).Some? && DatesParse(rest, parse)
    ensures DatesParse([r] + rest, parse)
    ensures SameDay([r] + rest, day, parse) == (if OnDay(r, day, parse) then [r] else []) + SameDay(rest, day, parse)
  {
    assert ([r] + rest)[0] == r && ([r] + rest)[1..] == rest;
    assert DatesParse([r] + rest, parse) by {
      forall i | 0 <= i < |[r] + rest| ensures parse(([r] + rest)[i].date).Some? {
        if i > 0 {
          assert ([r] + rest)[i] == rest[i - 1];
        }
      }
    }
    if !OnDay(r, day, parse) {
      assert [] + SameDay(rest, day, parse) == SameDay(rest, day, parse);
    }
  }

  lemma DatesParseAppend(xs: seq<Record>, ys: seq<Record>, parse: Parser)
    requires DatesParse(xs, parse) && DatesParse(ys, parse)
    ensures DatesParse(xs + ys, parse)
  {
    forall i | 0 <= i < |xs + ys| ensures parse((xs + ys)[i].date).Some? {
      if i >= |xs| {
        assert (xs + ys)[i] == ys[i - |xs|];
      }
    }
  }

  lemma SameDayMembersAll(records: seq<Record>, day: int, parse: Parser)
    requires DatesParse(records, parse)
    ensures forall r :: r in SameDay(records, day, parse) <==> r in records && OnDay(r, day, parse)
  {
    forall r
      ensures r in SameDay(records, day, parse) <==> r in records && OnDay(r, day, parse)
    {
      SameDayMembers(records, day, parse, r);
    }
  }

  /** Two records on the day, the first one twice: all three are kept, in order. */
  lemma SameDayKeepsRepeatsInOrder(r1: Record, r2: Record, day: int, parse: Parser)
    requires parse(r1.date).Some? && parse(r2.date).Some?
    requires OnDay(r1, day, parse) && OnDay(r2, day, parse)
    ensures SameDay([r1, r2, r1], day, parse) == [r1, r2, r1]
  {
    SameDaySingle(r1, day, parse);
    assert [r2] + [r1] == [r2, r1] && [r1] + [r2, r1] == [r1, r2, r1];
    SameDayCons(r2, [r1], day, parse);
    SameDayCons(r1, [r2, r1], day, parse);
  }

  /** One record is kept exactly when it falls on the day. */
  lemma SameDaySingle(r: Record, day: int, parse: Parser)
    requires parse(r.date).Some?
    ensures SameDay([r], day, parse) == if OnDay(r, day, parse) then [r] else []
  {
    assert [r][1..] == [];
  }

  datatype Selection = BadDate | Selected(data: StatsData)

  /** What `globalstats` must be able to read: a first record, or parseable record dates. */
  predicate GlobalReadable(globalData: seq<Record>, date: Option<string>, parse: Parser)
  {
    && (NoDate(date) ==> |globalData| > 0)
    && (!NoDate(date) && parse(date.value).Some? ==> DatesParse(globalData, parse))
  }

  /**
   * The record selection of `globalstats`: the first (most recent) record
   * without a date; with one, the invalid-date reply if it does not parse,
   * otherwise the list of records on the same calendar day.
   */
  function SelectGlobal(globalData: seq<Record>, date: Option<string>, parse: Parser): (selection: Selection)
    requires GlobalReadable(globalData, date, parse)
    ensures NoDate(date) ==> selection == Selected(OneRecord(globalData[0]))
    ensures !NoDate(date) ==> (selection == BadDate <==> parse(date.value).None?)
    ensures !NoDate(date) && parse(date.value).Some? ==>
      && selection == Selected(RecordList(SameDay(globalData, parse(date.value).value.Date(), parse)))
      && forall r :: r in selection.data.records <==>
           r in globalData && OnDay(r, parse(date.value).value.Date(), parse)
  {
    if NoDate(date) then Selected(OneRecord(globalData[0]))
    else
      match parse(date.value)
      case None => BadDate
      case Some(requested) =>
        SameDayMembersAll(globalData, requested.Date(), parse);
        Selected(RecordList(SameDay(globalData, requested.Date(), parse)))
  }

  /** Only the calendar day of the parsed argument matters, not its time of day. */
  lemma TimeOfDayIgnored(globalData: seq<Record>, d1: string, d2: string, parse: Parser)
    requires d1 != "" && d2 != ""
    requires parse(d1).Some? && parse(d2).Some? && parse(d1).value.Date() == parse(d2).value.Date()
    requires DatesParse(globalData, parse)
    ensures SelectGlobal(globalData, Some(d1), parse) == SelectGlobal(globalData, Some(d2), parse)
  {
  }

  /** `globalstats` */
  function GlobalStats(globalData: seq<Record>, date: Option<string>, parse: Parser, fmt: Formatter): (reply: Reply)
    requires GlobalReadable(globalData, date, parse)
    ensures reply == InvalidDate <==> !NoDate(date) && parse(date.value).None?
  {
    match SelectGlobal(globalData, date, parse)
    case BadDate => InvalidDate
    case Selected(data) =>
      if !Truthy(data) then Single(Embed(GlobalTitle, "", [NoDataField(fmt)], None))
      else Single(Embed(GlobalTitle, "", StatsFields(data, fmt), None))
  }

  /** A date with no record on that day gets the no-data field. */
  lemma GlobalStatsNoRecordThatDay(globalData: seq<Record>, date: string, parse: Parser, fmt: Formatter)
    requires date != "" && parse(date).Some? && DatesParse(globalData, parse)
    requires forall i :: 0 <= i < |globalData| ==> parse(globalData[i].date).value.Date() != parse(date).value.Date()
    ensures GlobalStats(globalData, Some(date), parse, fmt) == Single(Embed(GlobalTitle, "", [NoDataField(fmt)], None))
  {
    SameDayNone(globalData, parse(date).value.Date(), parse);
  }

  /**
   * With a date that has records, the "Overall stats" field is still left
   * empty: the selection is a list, and no key is ever `in` a list.
   */
  lemma GlobalStatsDateFieldStaysEmpty(globalData: seq<Record>, date: string, parse: Parser, fmt: Formatter, i: nat)
    requires date != "" && parse(date).Some? && DatesParse(globalData, parse)
    requires i < |globalData| && parse(globalData[i].date).value.Date() == parse(date).value.Date()
    ensures GlobalStats(globalData, Some(date), parse, fmt) == Single(Embed(GlobalTitle, "", [Field(OverallStats, "", true)], None))
  {
    var selection := SelectGlobal(globalData, Some(date), parse);
    assert globalData[i] in selection.data.records;
  }

  /** Without a date, or with an empty one, the most recent record's figures are reported. */
  lemma GlobalStatsLatest(globalData: seq<Record>, date: Option<string>, parse: Parser, fmt: Formatter)
    requires NoDate(date) && |globalData| > 0
    ensures GlobalStats(globalData, date, parse, fmt) == Single(Embed(GlobalTitle, "", StatsFields(OneRecord(globalData[0]), fmt), None))
  {
  }

  /**
   * The two-day series with 100 confirmed cases (10 new) on the latest day:
   * the field reads "Total cases : 100 (+10)" in the formatters' rendering.
   */
  lemma GlobalStatsExample(parse: Parser, fmt: Formatter)
    ensures var globalData := [
        Record("2020-03-05", map["confirmed" := 100, "new_confirmed" := 10]),
        Record("2020-03-04", map["confirmed" := 90])];
      GlobalStats(globalData, None, parse, fmt) == Single(Embed(GlobalTitle, "", [Field(OverallStats,
        "\n•" + fmt.underline("Total cases") + " : " + fmt.humanizeNumber(100)
        + "(+" + fmt.bold(fmt.humanizeNumber(10)) + ")", true)], None))
  {
    var latest := OneRecord(Record("2020-03-05", map["confirmed" := 100, "new_confirmed" := 10]));
    assert HasKey(latest, "confirmed") && HasKey(latest, "new_confirmed");
    assert Count(latest, "confirmed") == 100 && Count(latest, "new_confirmed") == 10;
    assert IncrementPresent(latest, Some("new_confirmed"));
    assert !HasKey(latest, "deaths") && !HasKey(latest, "recovered");
    var fields := AddStatsField([Field(OverallStats, "", true)], 0, latest, "confirmed", "Total cases",
                                Some("new_confirmed"), fmt);
    assert fields == [Field(OverallStats, "" + StatLine(fmt, "Total cases", 100) + IncrementSuffix(fmt, 10), true)];
    assert StatsFields(latest, fmt) == fields;
    var u, h, b := fmt.underline("Total cases"), fmt.humanizeNumber(100), fmt.bold(fmt.humanizeNumber(10));
    assert "" + StatLine(fmt, "Total cases", 100) + IncrementSuffix(fmt, 10)
        == "\n•" + u + " : " + h + "(+" + b + ")";
  }
}
