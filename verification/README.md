# Coronavirus stats and message analyzer cogs, modelled in Dafny

Two plugins ("cogs") for a Red-DiscordBot chat bot:

- **coronavirus-stats** answers `globalstats [date]` and `countrystats [country]`.
  It fetches COVID-19 figures and shows them in chat embeds. `add_stats_field`
  appends "Total cases / deaths / recovered" lines, with the daily increment, to an
  embed's "Overall stats" field. `embed_pages` turns text pages into footered
  embeds. `all_country_pages` builds the listing of all countries. Two rules pick
  the data shown: the country lookup, and the record selection by date.
- **message-analyzer** answers `analyzechannel`. It sends each of the latest 50
  messages of a channel to a toxicity-scoring service, one request per message,
  together with the server's configured attributes, and reports each returned attribute's mean summary score as a
  percentage. `perspectiveset addattr` and `removeattr` edit the configured
  attributes.

The model is split into these modules:

| file | module | contents |
|---|---|---|
| `common.dfy` | `Common` | `Option`, which stands for Python's `None` |
| `text.dfy` | `Text` | ASCII `upper`/`lower`/`capitalize`, Python `split`/`join` on one character, and decimal rendering of a natural number |
| `library.dfy` | `ChatFormatting`, `DateParsing` | The bot framework's formatters (`humanize_number`, `underline`, `bold`, `box`, `info`, `pagify`) and dateutil's parser, as function values supplied by the caller |
| `analyzer.dfy` | `MessageAnalyzer` | Requested attributes, score aggregation, display names, the channel report and the configuration commands |
| `stats.dfy` | `CoronavirusStats` | `add_stats_field`, `embed_pages`, `all_country_pages`, `countrystats` and `globalstats` |

The formatters and the parser have no definition here. Every property below holds
whatever they compute. The scoring service is a function value as well. It takes the
request's position in the batch, the message text and the requested attributes.
Two messages with the same text can therefore get different answers, as two
separate requests can.

Aggregation is written twice:
- `Aggregate` is a reference definition. For each attribute it takes 100 times the
  mean of the summary scores collected for it.
- `MessageStats` is the loop the cog runs, and it is proved equal to `Aggregate`.

The command handlers become pure functions from their inputs to the reply. The
inputs are the fetched data, the argument and the formatters. The reply is a small
datatype: an invalid-date or invalid-country message, a menu of embeds, or one embed.

Where the code does something other than what its comments or its design intend,
the model follows the code:

- **Error key.** `message_stats` checks the answer's `error` key, but that check does
  nothing (`pass`). An answer carrying both `error` and `attributeScores` still
  counts (`ErrorKeyIgnored`).
- **Unrequested attributes.** Every returned attribute is reported, whether or not it
  was requested (`AggregateKeys`).
- **Dated `globalstats`.** With a date, `globalstats` selects a *list* of the records
  on that calendar day, not one record. `key in list` is never true for a string key,
  so the "Overall stats" field stays empty whenever that day has data
  (`GlobalStatsDateFieldStaysEmpty`). Only a day without records gets the "No data"
  field.
- **Page footers.** `embed_pages` numbers a page by `pages.index(page)`, so equal
  pages share the number of the first one (`EqualPagesShareFooter`,
  `DuplicatePagesExample`).
- **Footer flag.** The `set_page_footer` flag is never read (`FooterFlagIgnored`).

## Model

| member | source | states |
|---|---|---|
| MessageAnalyzer.RequestedAttributes | message-analyzer/analyzer.py:28 | The request always names at least one attribute: the configuration when it is non-empty, otherwise the whole nine-name vocabulary. A configuration within the vocabulary yields a request within it. |
| MessageAnalyzer.ReachableConfigRequestsVocabulary | message-analyzer/analyzer.py:99-122 | Starting from the default {TOXICITY, SEVERE_TOXICITY}, any sequence of add/remove commands leaves a configuration, and hence a request, inside the vocabulary. |
| MessageAnalyzer.RunStaysInVocabulary | message-analyzer/analyzer.py:99-122 | Add/remove commands never take a configuration that lies within the vocabulary outside it. |
| MessageAnalyzer.Contribution | message-analyzer/analyzer.py:44-48 | An answer adds exactly one score to an attribute it scores and none to any other attribute. |
| MessageAnalyzer.ReturnedIffScored | message-analyzer/analyzer.py:45-48 | An attribute has collected scores if and only if some answer returned it. |
| MessageAnalyzer.Aggregate | message-analyzer/analyzer.py:51-53 | The result's keys are exactly the attributes some answer returned. |
| MessageAnalyzer.CollectScores | message-analyzer/analyzer.py:45-48 | The inner loop appends each entry's summary score to that attribute's list, starting a new list for a new name. No other list changes. |
| MessageAnalyzer.CollectAnswer | message-analyzer/analyzer.py:41-50 | One answer's pass adds its contribution to every list. An answer without `attributeScores` (the caught `AttributeError`) changes nothing. |
| MessageAnalyzer.MessageStats | message-analyzer/analyzer.py:37-53 | The loop over the messages, followed by the reduction `sum * 100 / len`, computes the reference aggregate of the service's answers. Each answer is the one the service gives for that message's own request. |
| MessageAnalyzer.CollectedAggregate | message-analyzer/analyzer.py:51-52 | Once the lists hold every collected score, every list is non-empty, and reducing them gives the reference aggregate. |
| MessageAnalyzer.PercentageIsScaledMean | message-analyzer/analyzer.py:52 | `(sum * 100) / len` is 100 times the arithmetic mean. |
| MessageAnalyzer.PercentageBounds | message-analyzer/analyzer.py:52 | Scores in [0, 1] give a percentage in [0, 100]. |
| MessageAnalyzer.AggregateKeys | message-analyzer/analyzer.py:45-47 | An attribute is reported if and only if some answer scores it. This holds whether or not the attribute was requested. |
| MessageAnalyzer.AggregateOfNothing | message-analyzer/analyzer.py:38 | No answers give an empty result. |
| MessageAnalyzer.AggregateExample | message-analyzer/analyzer.py:37-53 | Two answers scoring TOXICITY 0.2 and 0.8 give exactly {TOXICITY: 50}. |
| MessageAnalyzer.AggregateIsScaledMean | message-analyzer/analyzer.py:51-52 | Every returned attribute is reported, and its value is 100 times the mean of that attribute's collected scores, and that collection is non-empty. |
| MessageAnalyzer.AggregateBounded | message-analyzer/analyzer.py:51-52 | When every summary score lies in [0, 1], every reported value lies in [0, 100]. |
| MessageAnalyzer.AggregateCongruent | message-analyzer/analyzer.py:51-52 | Two batches with the same returned names, and the same score total and count per name, aggregate alike. |
| MessageAnalyzer.AnswerWithoutScoresIgnored | message-analyzer/analyzer.py:41-50 | An answer without `attributeScores`, anywhere in the batch, leaves the result unchanged. It does not end the loop. |
| MessageAnalyzer.ErrorKeyIgnored | message-analyzer/analyzer.py:42-43 | Answers that differ only in their `error` key aggregate alike. The error check has no effect. |
| MessageAnalyzer.PermutationKeepsTotals | message-analyzer/analyzer.py:39-48 | Reordering the answers keeps each attribute's score total, score count and the returned names. |
| MessageAnalyzer.AggregateOrderIndependent | message-analyzer/analyzer.py:39-53 | The order in which messages are analyzed does not change the report. |
| MessageAnalyzer.DisplayNameShape | message-analyzer/analyzer.py:76 | The field title has the attribute's length. Its first character is upper-cased, the rest are lower-cased, and every underscore becomes a space, so no underscore remains. |
| MessageAnalyzer.DisplayNameOfSevereToxicity | message-analyzer/analyzer.py:76 | SEVERE_TOXICITY is titled "Severe toxicity". |
| MessageAnalyzer.LatestMessages | message-analyzer/analyzer.py:68 | At most 50 messages are taken, as a prefix of the history (newest first). All of them are taken when there are fewer. |
| MessageAnalyzer.AnalyzeChannel | message-analyzer/analyzer.py:57-78 | Without an API key the reply is the missing-key embed, whatever the service would answer. Otherwise, an empty channel gives the no-messages error. An empty aggregate gives "An error occured.". In every other case there is one (title, percentage) field per aggregated attribute. Each of these holds in both directions. |
| MessageAnalyzer.AddAttr | message-analyzer/analyzer.py:99-107 | An unknown name is refused and a configured one is reported as already present; neither changes the configuration. Otherwise exactly that attribute is added. |
| MessageAnalyzer.RemoveAttr | message-analyzer/analyzer.py:114-122 | An unknown name is refused and an unconfigured one is reported as absent; neither changes the configuration. Otherwise exactly that attribute is removed. |
| MessageAnalyzer.AddThenRemove | message-analyzer/analyzer.py:99-122 | Adding a valid, unconfigured attribute and then removing it restores the configuration. |
| MessageAnalyzer.RemoveThenAdd | message-analyzer/analyzer.py:99-122 | Removing a configured attribute and adding it back restores the configuration. |
| CoronavirusStats.AddStatsField | coronavirus-stats/stats.py:24-30 | Only the field at the index can change. If the key is missing, nothing changes. Otherwise the field keeps its name, becomes inline, and its value gains "\n•label : count", followed by "(+increment)" when the increment key is given and present. |
| CoronavirusStats.IncrementSuffixIff | coronavirus-stats/stats.py:28-29 | The increment suffix is written if and only if the increment key is given, non-empty and present. |
| CoronavirusStats.StatsFields | coronavirus-stats/stats.py:82-85 | The three calls leave exactly one field, named "Overall stats". |
| CoronavirusStats.FirstIndex | coronavirus-stats/stats.py:43 | `list.index` returns the first position holding the value. |
| CoronavirusStats.PageEmbedsFrom | coronavirus-stats/stats.py:41-44 | The loop emits one embed per remaining page, in order. |
| CoronavirusStats.EmbedPages | coronavirus-stats/stats.py:33-45 | There is one embed per page. Each has the given title, the description followed by the boxed page, and the footer "Page i/n", where i is one more than the first position of an equal page. |
| CoronavirusStats.DistinctPagesNumberedInOrder | coronavirus-stats/stats.py:43 | When no two pages are equal, page k is footed "Page k+1/n". |
| CoronavirusStats.EqualPagesShareFooter | coronavirus-stats/stats.py:43 | Equal pages get identical embeds, footer included. |
| CoronavirusStats.DuplicatePagesExample | coronavirus-stats/stats.py:43 | Two identical pages are both footed "Page 1/2". |
| CoronavirusStats.FooterFlagIgnored | coronavirus-stats/stats.py:33 | The `set_page_footer` argument does not affect the result. |
| Text.NatToStringInjective | coronavirus-stats/stats.py:43 | Distinct page numbers render as distinct decimal texts. |
| CoronavirusStats.CountryLines | coronavirus-stats/stats.py:53-55 | There is one line per country, in input order, each "name(code) : confirmed". |
| CoronavirusStats.CountryListingLines | coronavirus-stats/stats.py:52-56 | Cutting the text handed to `pagify` at newlines gives back exactly the country lines, provided no line contains a newline. |
| Text.SplitJoin | coronavirus-stats/stats.py:56 | `split` undoes `"\n".join` on newline-free parts. |
| CoronavirusStats.EmptyListing | coronavirus-stats/stats.py:56 | No countries give an empty listing text. |
| CoronavirusStats.FindCountry | coronavirus-stats/stats.py:113-116 | The loop selects the first country whose upper-cased name or code equals the upper-cased argument. It finds none exactly when no country matches. |
| CoronavirusStats.ListedIffFound | coronavirus-stats/stats.py:110-116 | The membership check on the upper-cased names and codes passes if and only if the loop finds a country. `country_data` is therefore always bound after the check. |
| CoronavirusStats.FoundFirstMatch | coronavirus-stats/stats.py:113-116 | A matching country with no match before it is the one selected. |
| CoronavirusStats.CountryStats | coronavirus-stats/stats.py:104-126 | Without an argument the reply is the menu of country pages. With one, the invalid-country reply is given if and only if no country matches. |
| CoronavirusStats.CountryStatsSelected | coronavirus-stats/stats.py:117-126 | A matched country's reply is titled after the first matching country. It holds the no-data field when the country has no timeline, and otherwise the figures of its first timeline record. |
| CoronavirusStats.FindCountryUpperOnly | coronavirus-stats/stats.py:114 | The selection depends on the argument only through its upper-cased form. |
| CoronavirusStats.CountryStatsCaseInsensitive | coronavirus-stats/stats.py:110-116 | Arguments equal up to case get the same reply. |
| CoronavirusStats.CountryStatsLowerCase | coronavirus-stats/stats.py:111 | The lower-cased argument gets the same reply as the argument itself. |
| Text.UpperOfLower | coronavirus-stats/stats.py:111 | Upper-casing forgets how the argument was cased. |
| CoronavirusStats.SameDayMembers | coronavirus-stats/stats.py:78 | A record is selected if and only if it is one of the records and its parsed calendar day is the requested one. |
| CoronavirusStats.SameDayCounts | coronavirus-stats/stats.py:78 | A record on the requested day is kept exactly as many times as it occurs. A record on another day is dropped. |
| CoronavirusStats.SameDayAppend | coronavirus-stats/stats.py:78 | Selecting from `xs + ys` gives the selection from `xs` followed by the selection from `ys`, so the original order is kept. |
| CoronavirusStats.SameDaySingle | coronavirus-stats/stats.py:78 | A single record is kept if and only if it falls on the requested day. |
| CoronavirusStats.SameDayCons | coronavirus-stats/stats.py:78 | Selecting from `[r] + rest` gives `r` (when it falls on the day) followed by the selection from `rest`. |
| CoronavirusStats.SameDayNone | coronavirus-stats/stats.py:78-79 | When no record falls on the requested day, the selection is empty, so it is falsy. |
| CoronavirusStats.SameDayKeepsRepeatsInOrder | coronavirus-stats/stats.py:78 | Records [r1, r2, r1] all on the day are selected as [r1, r2, r1]: repeats and order are kept. |
| CoronavirusStats.SelectGlobal | coronavirus-stats/stats.py:71-78 | With no or an empty date, the first record is selected. An unparseable date gives the invalid-date reply, and only such a date does. A parsed date selects, as a list, the same-day filter of the records. That list holds a record if and only if the record falls on that calendar day. |
| CoronavirusStats.TimeOfDayIgnored | coronavirus-stats/stats.py:78 | Two dates on the same calendar day select the same records, whatever their time of day. |
| CoronavirusStats.GlobalStats | coronavirus-stats/stats.py:68-85 | The reply is the invalid-date error if and only if a non-empty date fails to parse. |
| CoronavirusStats.GlobalStatsNoRecordThatDay | coronavirus-stats/stats.py:78-81 | A parsed date with no record on that day gets the single "No data found for the current day." field. |
| CoronavirusStats.GlobalStatsDateFieldStaysEmpty | coronavirus-stats/stats.py:78-85 | A parsed date with records on that day gets an "Overall stats" field with an empty value. |
| CoronavirusStats.GlobalStatsLatest | coronavirus-stats/stats.py:71-72 | Without a date, or with an empty one, the most recent record's figures are reported. |
| CoronavirusStats.GlobalStatsExample | coronavirus-stats/stats.py:82-85 | For the series [{2020-03-05: 100 confirmed, 10 new}, {2020-03-04: 90}] without a date, the field reads "\n•Total cases : 100(+10)" in the formatters' rendering. |
| Text.JoinSplitReplaces | message-analyzer/analyzer.py:76 | `" ".join(s.split("_"))` replaces every underscore by a space and keeps every other character. |

## Left out

- HTTP fetching (`CoronavirusDataApi`, `analyze_message`'s POST and API-token lookup): I/O. The fetched data and the scoring service enter as parameters (`analyze` is a function value).
- `Graph` plotting, the chart image, embed colours and `set_image`: rendering with no logic to state.
- The reaction menu (`menu`, `next_page`, `prev_page`, `close_menu`) and its control map: framework I/O. The reply carries the embeds it would page through.
- `perspectiveset` without a subcommand, which only lists the configured names: formatting only.
- Persistence of the server configuration (`Config` reads and writes): the commands are modelled as transitions on a set of names.
- The `"{:.2f}%"` formatting of each percentage and the embed's title and description text: the report keeps the real value.
- Dictionary iteration order (the order of report fields and of configured names): `set`/`map` are used instead of ordered dicts.
- Floating-point rounding in `sum(val) * 100 / len(val)`: scores are exact reals.
- The texts of the error replies (`chat_formatter.error(...)` for an invalid date, an invalid country, an empty channel and an empty aggregate): these replies are constants of the reply datatypes.
- `humanize_number`, `underline`, `bold`, `box`, `info`, `pagify` and dateutil's `parse`: library code, modelled as arbitrary function values. `pagify`'s page-length bound and line-boundary cutting are therefore not stated.
- Unicode case mapping: `upper`, `lower` and `capitalize` are modelled on ASCII letters only. Other characters are kept unchanged.
- Exceptions that end a command: these are preconditions. They are a missing `summaryScore.value` in an answer (`HasSummaryScores`), an empty `global_data` without a date, an unparseable record date, and an empty `timeline` of the selected country (`TimelineReadable`). Without a date, a `global_data[0]` that is not a record is not modelled either.
- `AnalyzeChannel`: the report's field set does not record the order of fields, and two attributes with the same title would appear once.
- `StatsFields`: its own contract states only the field's name. Its value is given through the `AddStatsField` contract and `GlobalStatsExample`.
