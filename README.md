# Prisma Cloud automation scripts — a verified model

This project models, in Dafny, the core logic of two scripts that automate
Prisma Cloud Compute.

- **`add_runtime_rule.py`** turns the learned model of every container into a
  runtime protection rule. The model covers:
  - the listening and outbound port lists collected from the `static` and
    `behavioral` network sections;
  - the de-duplicated process and file-system allow-lists;
  - the port ranges;
  - the collection name, description and rule name;
  - the loop that builds one `Runtime` per container.
- **`prisma_report_generator.py`** pulls WAAS firewall audit events and builds
  an Excel report. The model covers:
  - the offset-paginated fetch with its rate-limit backoff;
  - the conversion of event times from UTC to GMT+7 (`Report.parse_time`);
  - the grouping of events by URL;
  - the computation of column widths.

The modules are:

| file | module | what it holds |
|---|---|---|
| `util.dfy` | `Util` | `Option`; the "append unless present" idiom (`AddUnseen`) with its reference definition `FirstOccurrences`; `CollectSome`, a loop that stops at the first failure |
| `runtime_rule.dfy` | `RuntimeRule` | the container model, the `Runtime` object, the rule record and every function of the rule builder |
| `report_time.dfy` | `ReportTime` | `parse_time`: parsing the two ISO layouts, the seven-hour shift, the display layout, and a seconds time line used to state the shift |
| `waas_fetch.dfy` | `WaasFetch` | the fetch loop as a method (`FetchEvents`); the same loop as a state machine (`Step`, `Run`) against which the method is proved and about which the properties are stated |
| `waas_report.dfy` | `WaasReport` | report items, the grouping loop, and the `max_lengths` computation of `write_to_excel` on an array |

Code that works by steps keeps its loops, as it does in the scripts. Each such
method is proved equal to a specification function, and the properties are
lemmas about that function.

- Path and port lists use `AppendUnseen` and `GetAllPorts`.
- The fetch is `FetchEvents` with `RetryAfterRateLimit`.
- The grouping is `GroupByUrl`.
- The widths are `ColumnWidths`, `MeasureGroup`, `WidenColumns` and `SetColumns`; `max_lengths` is an `array` updated in place.

Expression-only code is written as functions: the name normalisers,
`dump_json` and `parse_time`.

The HTTP client is replaced by a sequence of responses. Each response is a
status code and, for a 200, the decoded page. `time.sleep` becomes a log of
requested delays. The clock text of `generate_time` is a parameter.

### Where the code does something other than one might expect

The model follows the code in each case.

- **Retries after a 429 throw away their data.** A retry that gets 200
  leaves the retry loop, but its page is not kept. The outer loop asks again
  for the same offset.
- **Running out of retries does not end the fetch.** After five failed retries
  control goes back to `while True`, which asks again for the same offset.
  The message "Max retry attempts reached" is printed only on the branch for
  a status other than 200 and 429. That branch ends the fetch without any
  retry.
- **Request count against a well-behaved server.** A server holding N events
  gets ceil(N/100) + 1 requests: one per non-empty page, then the empty page
  that ends the loop. When N is a multiple of 100 this equals
  ceil((N+1)/100), and otherwise it is one more.
- **The 100-character limit on collection names is not guaranteed.** A long
  name without `" - "` (an image with no `/` and no space) is kept whole.
- **A shortened collection name can be the bare word "Image".** When the
  image starts with `-/` or `- ` and the full name exceeds 100 characters,
  the first `" - "` is the one right after "Image", so nothing else is kept.
- **`normalize_image_name` raises on a name without `.`.** It raises
  UnboundLocalError, so `add_runtime_rule` fails for the whole input.
- **A time that does not parse stops the report.** `parse_time` raises
  `ValueError`, and the exception leaves `main` before any sheet is written.
- **`parse_time` overflows at the end of the calendar.** When 7 hours past
  the time is after 9999-12-31, `datetime` raises OverflowError.

## Model

| member | source | states |
|---|---|---|
| Util.AddUnseen | add_runtime_rule.py:189-191 | appending each not-yet-present element keeps the old list as a prefix, holds exactly the old and the new elements, never re-adds an old one and adds no element twice |
| Util.AppendUnseen | add_runtime_rule.py:189-196 | the append loop guarded by `not in` computes `AddUnseen` |
| Util.AddUnseenAppend | add_runtime_rule.py:187-196 | scanning two lists one after the other is scanning their concatenation |
| Util.DedupIsFirstOccurrences | add_runtime_rule.py:185-197 | de-duplication keeps exactly the first occurrence of every value, in input order (reference definition built from the back) |
| Util.DedupOfPrefix | prisma_report_generator.py:80-84 | the keys collected from a prefix of the input are a prefix of the final keys: later input never reorders them |
| Util.CollectSomeMeaning | add_runtime_rule.py:231-250 | a loop that stops at the first failure fails exactly when some step fails, and otherwise holds every step's value at its index |
| Util.CollectSome | add_runtime_rule.py:231-247 | the loop that aborts at its first failure: a success holds one value per step; `CollectSomeMeaning` gives which values and when it fails |
| Util.CollectSomeFailureIsFinal | add_runtime_rule.py:232-247 | once a step failed, the whole loop fails |
| RuntimeRule.ReplaceChar | add_runtime_rule.py:19 | `str.replace` of one character: identity when the character is absent; with a one-character replacement, the same length and each position mapped; any replacement is described piece by piece by `ReplaceCharAppend` and `ReplaceCharSingle` |
| RuntimeRule.ReplaceCharAppend | add_runtime_rule.py:19 | replacing in a concatenation is replacing in each part and concatenating |
| RuntimeRule.ReplaceCharSingle | add_runtime_rule.py:19 | the replaced character becomes the whole replacement (such as `" - "` for `/`), and any other character is kept |
| RuntimeRule.ReplaceCharAbsent | add_runtime_rule.py:19 | a replaced character that is not in its replacement does not occur in the result |
| RuntimeRule.BeforeSeparator | add_runtime_rule.py:21-22 | `split(" - ")[0]` is a prefix that contains no `" - "` and is followed by one unless it is the whole text |
| RuntimeRule.FullCollectionName | add_runtime_rule.py:19 | the name before shortening opens with "Image "; `FullCollectionNameShape` and `MappedSegments` give the rest |
| RuntimeRule.FullCollectionNameShape | add_runtime_rule.py:19 | the unshortened name starts with "Image ", has no `/` or `.`, and its seventh character is `-` only when the image starts with `-` |
| RuntimeRule.SlashesToSeparators | add_runtime_rule.py:19 | in an image whose first `/` is at `k`, writing every `/` as `" - "` gives the first segment, `" - "`, then the rest so written |
| RuntimeRule.MappedSegments | add_runtime_rule.py:19 | after `.` also becomes `_`, the mapped image is the first segment with `.` as `_`, then `" - "`, then the mapped rest |
| RuntimeRule.ImagePrefix | add_runtime_rule.py:19 | the fixed opening "Image " adds no `/`, `.` or early space |
| RuntimeRule.CollectionName | add_runtime_rule.py:18-23 | the name has no `/` or `.`; it starts with "Image", and with "Image " unless the image starts with `-`; it is the full name when at most 100 characters and otherwise the text before the first `" - "` |
| RuntimeRule.CollectionNameKeepsUnseparatedImage | add_runtime_rule.py:20-22 | an image without `/` or spaces keeps its whole name, however long (whatever its first character): the limit of 100 is not enforced |
| RuntimeRule.CollectionNameKeepsFirstSegment | add_runtime_rule.py:18-23 | when the full name exceeds 100 characters, the name kept is "Image " and the image's first path segment (its `.` as `_`), provided that segment has no space and is not `-` (a segment `-` makes the name's own "Image - " the first separator) |
| RuntimeRule.CollectionNameOfDashSegment | add_runtime_rule.py:18-23 | when the image starts with `-/` or `- ` and the full name exceeds 100 characters, the name kept is the bare word "Image" |
| RuntimeRule.NormalizeDescription | add_runtime_rule.py:41-44 | the result is a prefix of at most 100 characters, the input itself when it fits and exactly 100 characters otherwise |
| RuntimeRule.NormalizeDescriptionIdempotent | add_runtime_rule.py:41-44 | normalising twice is normalising once |
| RuntimeRule.NormalizeImageName | add_runtime_rule.py:199-202 | fails exactly when there is no `.`; otherwise every `.` becomes `-`, nothing else changes and no `.` remains |
| RuntimeRule.InsertOffsetColon | add_runtime_rule.py:211 | one colon is inserted before the last two characters and the rest of the text is unchanged |
| RuntimeRule.MergePortsData | add_runtime_rule.py:144-149 | one `portsData` object extends the listening list, never repeats a port already there, and keeps a duplicate-free list duplicate-free |
| RuntimeRule.MergePortsDataMembers | add_runtime_rule.py:145-149 | "all" is in the result exactly when it was there or the object has an "all" key; a port is added only if listed, and always when listed without "all" |
| RuntimeRule.MergeEntries | add_runtime_rule.py:159-161 | the scan of a `listeningPorts` list extends the list, never repeats a port and keeps it duplicate-free |
| RuntimeRule.MergeEntriesAppend | add_runtime_rule.py:157-175 | scanning the static entries and then the behavioral ones is scanning their concatenation |
| RuntimeRule.MergeEntriesMembers | add_runtime_rule.py:157-175 | "all" ends up listed exactly when some entry has an "all" key; a port only if some entry lists it, and always when an entry without "all" lists it |
| RuntimeRule.PortsOf | add_runtime_rule.py:137-177 | the listening list is duplicate-free and starts with what the static section gives; the outbound list has one value per behavioral outbound port |
| RuntimeRule.ListeningPortsMembers | add_runtime_rule.py:157-175 | membership of the returned listening list in terms of the static and behavioral entries |
| RuntimeRule.OutboundPortsAreBehavioral | add_runtime_rule.py:168-169 | the outbound list is exactly the behavioral outbound port values, in order, not de-duplicated |
| RuntimeRule.ProcessPortsData | add_runtime_rule.py:144-149 | the helper computes `MergePortsData` |
| RuntimeRule.ProcessListeningEntries | add_runtime_rule.py:159-161 | the entry loop computes `MergeEntries` |
| RuntimeRule.GetAllPorts | add_runtime_rule.py:137-177 | `get_all_ports` computes `PortsOf` |
| RuntimeRule.ExpandedPorts | add_runtime_rule.py:24-39 | one range when "all" is listed, otherwise one range per port |
| RuntimeRule.ExpandedPortsAllow | add_runtime_rule.py:24-39 | the ranges admit exactly ports 1..65535 when "all" is listed and otherwise exactly the listed ports; range `i` is port `i` to port `i` |
| RuntimeRule.ExpandPort | add_runtime_rule.py:24-39 | the loop computes `ExpandedPorts` |
| RuntimeRule.AllowedPaths | add_runtime_rule.py:185-197 | the allow-list has no duplicates and holds exactly the behavioral and static paths |
| RuntimeRule.AllowedPathsFirstOccurrences | add_runtime_rule.py:185-197 | the allow-list is the first occurrence of each path, behavioral paths scanned before static ones |
| RuntimeRule.GetAllowedProcesses | add_runtime_rule.py:185-197 | `get_allowed_processes` computes `AllowedPaths` |
| RuntimeRule.GetFsAllowedPaths | add_runtime_rule.py:215-227 | `get_fs_allowed_paths` computes `AllowedPaths` |
| RuntimeRule.RuntimeFor | add_runtime_rule.py:233-245 | the loop body's `Runtime` exists exactly when the image has a `.`, and carries the image and the colon-inserted clock text; the rest of its fields are given by `RuleForContainer` |
| RuntimeRule.RuntimeOf | add_runtime_rule.py:238-245 | the `Runtime(...)` constructor call: it keeps the image, and its allow-lists and listening port list have no duplicates; the full meaning of its fields is stated by `RuleForContainer` |
| RuntimeRule.DumpJson | add_runtime_rule.py:47-133 | the rule document of a `Runtime`, restricted to the fields that depend on the container: one collection, over the one image, whose name has no `/` or `.` and whose description has at most 100 characters; the full meaning is stated by `RuleForContainer` |
| RuntimeRule.BuildRuntime | add_runtime_rule.py:233-245 | the loop body builds `RuntimeFor` the container, failing when the image has no `.` |
| RuntimeRule.AppendRuntime | add_runtime_rule.py:232-247 | one turn extends the runtimes of the earlier containers, and a failure makes the whole loop fail |
| RuntimeRule.AddRuntimeRule | add_runtime_rule.py:228-250 | the loop computes the runtimes of all containers, or fails at the first failure |
| RuntimeRule.AddRuntimeRuleOutcome | add_runtime_rule.py:228-250 | the call fails exactly when some image has no `.`; otherwise there is one `Runtime` per container, in input order, each built from its container |
| RuntimeRule.RuleForContainer | add_runtime_rule.py:47-133 | the rule's name is "Runtime Rule for " and the image with `.` turned into `-`; its one collection has images `[image]`, the normalised name and the normalised description ("Automatically created collection used for image " and the image, cut to 100 characters); its listening and outbound ranges are `expand_port` of the container's port lists (one range per port, in order) and admit exactly the container's ports; its allow-lists are the de-duplicated paths; `modified` is the colon-inserted clock text |
| ReportTime.TwoDigitsRoundTrip | prisma_report_generator.py:28 | a two-digit field reads back as its number |
| ReportTime.FourDigitsRoundTrip | prisma_report_generator.py:28 | a four-digit year reads back as its number |
| ReportTime.ParsePlain | prisma_report_generator.py:23 | the format without fraction accepts only 20-character texts and yields a valid date and time; `ParseIsoText` shows it reads back every valid one |
| ReportTime.ParseFractional | prisma_report_generator.py:25 | the format with fraction accepts only 22- to 27-character texts, never one the plain format accepts, and yields a valid date and time; `FractionIgnored` shows the fraction is dropped |
| ReportTime.Display | prisma_report_generator.py:28 | the display text is 19 characters; `DisplayReadsBack` gives its layout and fields |
| ReportTime.ParseFields | prisma_report_generator.py:23 | a parsed date and time has the `YYYY-MM-DDTHH:MM:SS` layout and is a valid calendar date and time |
| ReportTime.ParseFieldsReadsText | prisma_report_generator.py:23 | an accepted text spells its result: every field of the text is the result's field written with its width, so no text naming an impossible date or time (30 February, month 13, second 60) is ever accepted |
| ReportTime.ParseUtc | prisma_report_generator.py:22-25 | whichever format matches, the result is a valid date and time |
| ReportTime.AddLocalOffset | prisma_report_generator.py:27 | the shifted time is valid, and the shift fails exactly in the last seven hours of 9999-12-31 |
| ReportTime.AddLocalOffsetAddsSevenHours | prisma_report_generator.py:27 | the shift moves the time line exactly 7 × 3600 seconds ahead, across day, month and year boundaries |
| ReportTime.DaysBeforeNextMonth | prisma_report_generator.py:27 | the month table and the month lengths agree |
| ReportTime.MonthsFillYear | prisma_report_generator.py:27 | the twelve months fill the year, leap years included |
| ReportTime.ParseTime | prisma_report_generator.py:21-28 | fails when neither format matches; a result is 19 characters long |
| ReportTime.ParseTimeShiftsToLocal | prisma_report_generator.py:21-28 | a result is the parsed UTC time seven hours on, in the display layout |
| ReportTime.FractionIgnored | prisma_report_generator.py:22-25 | a 1- to 6-digit fraction changes neither the parsed time nor the output |
| ReportTime.ParseIsoText | prisma_report_generator.py:23 | every valid date and time is recovered from its ISO text |
| ReportTime.DisplayReadsBack | prisma_report_generator.py:28 | the output has the `DD-MM-YYYY HH:MM:SS` layout and its fields read back as the date and time |
| ReportTime.ParseTimeOfIsoText | prisma_report_generator.py:21-28 | the ISO text of a date and time converts to the display of that time seven hours on |
| ReportTime.ExampleSameDay | prisma_report_generator.py:21-28 | "2024-03-05T10:15:30Z" gives "05-03-2024 17:15:30" |
| ReportTime.ExampleFraction | prisma_report_generator.py:25 | "2024-03-05T10:15:30.123456Z" gives the same text |
| ReportTime.ExampleYearRollover | prisma_report_generator.py:27-28 | "2024-12-31T20:00:00Z" gives "01-01-2025 03:00:00" |
| ReportTime.ExampleOverflow | prisma_report_generator.py:27 | "9999-12-31T17:00:00Z" has no local time |
| ReportTime.ExampleNoSuchDay | prisma_report_generator.py:21-25 | "2024-02-30T10:00:00Z" is rejected: there is no 30 February |
| WaasFetch.Step | prisma_report_generator.py:41-73 | one turn of `while True`: after the loop has ended nothing changes; otherwise exactly one request is made, at the current offset, and the events and delays only grow |
| WaasFetch.Run | prisma_report_generator.py:41-73 | the whole loop over a sequence of responses: events, requests and delays only grow, with at most one request per response |
| WaasFetch.FetchEvents | prisma_report_generator.py:41-73 | the loop ends in the state the state machine reaches on the same responses |
| WaasFetch.RetryAfterRateLimit | prisma_report_generator.py:65-70 | the retry loop ends in `Paging` (or when the responses run out) in the state the state machine reaches from retry 1 |
| WaasFetch.DoneIsFinal | prisma_report_generator.py:56-58 | after the loop breaks, later responses change nothing |
| WaasFetch.RunAppend | prisma_report_generator.py:41-73 | consuming two runs of responses is consuming their concatenation |
| WaasFetch.RunAccumulatesPages | prisma_report_generator.py:50-61 | `offset` moves by 100 per accepted page and by nothing else; the events are exactly the accepted pages in order; every accepted page is non-empty and was answered with 200 to a page request |
| WaasFetch.StepConsistent | prisma_report_generator.py:41-73 | each step keeps the offset a multiple of 100 and at most 100 per event held, every request at a page offset not past it, every delay between 2 and 10 and the retry number between 1 and 5 |
| WaasFetch.RunConsistent | prisma_report_generator.py:41-73 | the same for any run of responses |
| WaasFetch.FetchConsistent | prisma_report_generator.py:32-33 | the same from offset 0, whatever the responses |
| WaasFetch.HardFailureStops | prisma_report_generator.py:71-73 | a status other than 200 or 429 ends the fetch at once, keeping the events and making no further request |
| WaasFetch.EmptyPageCompletes | prisma_report_generator.py:56-58 | the first empty 200 page ends the fetch normally |
| WaasFetch.RetriesFrom | prisma_report_generator.py:65-70 | retries from number `a` on sleep 2a, 2a+2, ..., re-request the same offset and return to paging at the first 200 or after the fifth |
| WaasFetch.RateLimitedRound | prisma_report_generator.py:63-70 | a 429 followed by k retries sleeps 2, 4, ..., 2k, leaves offset and events unchanged, and makes the next request at the same offset |
| WaasFetch.ExhaustedRetriesSleep | prisma_report_generator.py:65-67 | the longest round sleeps 2, 4, 6, 8, 10 seconds |
| WaasFetch.ServedPagesFetchAll | prisma_report_generator.py:41-61 | against a server that hands out its events 100 at a time, the fetch completes with every event in order and never sleeps |
| WaasFetch.ServedPagesRequests | prisma_report_generator.py:42-61 | it makes ceil(N/100) + 1 requests, at offsets 0, 100, 200, ... |
| WaasFetch.FetchFromStart | prisma_report_generator.py:31-61 | from the start: all events, completion, ceil(N/100) + 1 requests, no sleep |
| WaasReport.ItemOf | prisma_report_generator.py:81-91 | the item fails exactly when the time does not convert; its time is `parse_time`'s text (19 characters), its attack type, source IP and image are the event's `type`, `subnet` and `imageName`, its endpoint is the method, a space and the path, and its path is the event's path |
| WaasReport.AddItem | prisma_report_generator.py:82-92 | one pass: the URL joins the keys exactly when it is new, its list gains the item at the end (starting empty when new), and every other key and its list are unchanged |
| WaasReport.Grouped | prisma_report_generator.py:79-92 | the dictionary after all events holds at most one key per event; its full meaning is given by `GroupedFails`, `GroupedUrls`, `GroupedItems` and `GroupedWellFormed` |
| WaasReport.GroupByUrl | prisma_report_generator.py:79-92 | the loop computes the grouping, stopping at the first item that cannot be built |
| WaasReport.GroupReports | prisma_report_generator.py:79-92 | the grouping of `main`, with times converted by `parse_time` |
| WaasReport.GroupedFails | prisma_report_generator.py:85-86 | grouping fails exactly when some event's item cannot be built |
| WaasReport.AddItemWellFormed | prisma_report_generator.py:82-92 | one pass keeps the keys listed once each, matching the dictionary's keys, each holding a non-empty list |
| WaasReport.AddItemUrls | prisma_report_generator.py:82-84 | one pass adds the URL to the keys exactly when it is new |
| WaasReport.GroupedWellFormed | prisma_report_generator.py:79-92 | the finished dictionary has each key once and no empty group |
| WaasReport.GroupedUrls | prisma_report_generator.py:80-84 | the keys are the distinct URLs in first-seen order |
| WaasReport.GroupedItems | prisma_report_generator.py:80-92 | under each URL are exactly the items of that URL's events, in event order, and a URL that is not a key has no event |
| WaasReport.GroupedRowCount | prisma_report_generator.py:79-92 | the groups hold one item per event: the sheet gets one row per event |
| WaasReport.AddItemRowCount | prisma_report_generator.py:82-92 | one pass adds one row |
| WaasReport.Cells | prisma_report_generator.py:151-159 | the row written for an item has one cell per key and opens with the URL; `RowsShape` and `GroupRowsShape` place it in the sheet |
| WaasReport.RowsShape | prisma_report_generator.py:143-159 | every row written has seven cells and starts with one of the keys |
| WaasReport.GroupRowsShape | prisma_report_generator.py:144-159 | row `k` of a URL's rows is the row of its `k`-th item |
| WaasReport.Widen | prisma_report_generator.py:160-166 | one row's updates: each maximum stays at least what it was and at least the cell's length, and is one of the two |
| WaasReport.MaxLengths | prisma_report_generator.py:142-166 | the maxima after all rows, one per column; `MaxLengthsMeaning` gives their value |
| WaasReport.MaxLengthsMeaning | prisma_report_generator.py:142-166 | each column's maximum is at least its key's length and every cell's length in it, and equals one of them |
| WaasReport.MaxLengthsColumn | prisma_report_generator.py:160-166 | the same, one column at a time |
| WaasReport.WidenColumns | prisma_report_generator.py:160-166 | the seven updates raise each column's maximum to its cell's length when that is larger |
| WaasReport.MeasureGroup | prisma_report_generator.py:144-167 | the item loop takes the maxima over the earlier rows to the maxima over those and the URL's rows |
| WaasReport.SetColumns | prisma_report_generator.py:168-169 | each column's width is its maximum plus 2 |
| WaasReport.ColumnWidths | prisma_report_generator.py:142-169 | the widths set are 2 + the maxima over the header keys and every row written, in sheet order |

## Left out

- HTTP: the requests to the console (`requests.request`), `create_collection` and `put_to_prisma`. These are network I/O. Responses are an input sequence.
- `time.sleep`: only the delay is recorded.
- File I/O: `read_json`, the JSON dumps to `result_data.json` and `end_data.json`, `.env` loading and the workbook file.
- Presentation calls of `write_to_excel`: xlsxwriter's workbook, sheet, formats, `write_row` and `merge_range`. The cells and the column widths are modelled. The URL-cell merging, including the fact that the last URL group is never merged, is presentation and is not modelled.
- `__str__` methods, the printed progress messages and the `dashboard/` package (UI and PDF wrappers over libraries not shown).
- RuntimeRule.DumpJson: the constant fields of the rule (the effect settings, wildcard scopes, owner, colour) are not part of the record. Only the fields derived from the container are.
- RuntimeRule.AddRuntimeRule: `generate_time` reads the wall clock, so the text it formats for the i-th container is a parameter `clock(i)`. Only its colon insertion is modelled (`InsertOffsetColon`).
- ReportTime.ParseUtc: fields are fixed-width ASCII digits. `strptime` also accepts one-digit months, days, hours, minutes and seconds, a space-padded day (`%d` matching `" 5"`), and non-ASCII decimal digits in `%Y` and in some positions of `%d`, `%H`, `%M` and `%S` (never in the month or the fraction); this model rejects all of these. `T` and `Z` are accepted in either case, as `strptime` does.
- ReportTime.Display: the year is always written with four digits. `strftime("%Y")` for a year below 1000 depends on the platform's C library (unpadded on glibc), so for such years the script's text may be shorter.
- ReportTime.ParseTime: the fraction is checked as 1 to 6 digits and dropped. Leap seconds (`:60`) are rejected, as `datetime` does.
- WaasFetch.FetchEvents: the source loop runs as long as the server answers. The model consumes a finite sequence of responses and returns the state reached when they run out.
- WaasReport.GroupByUrl: the item builder is a parameter, so the grouping proofs do not depend on the time parser. `WaasReport.GroupReports` passes `ItemOf`, the builder of `main`. The dictionary's key order is kept as a list beside the map.
- Missing keys: every key the scripts index is a field of the model's records, so the KeyError raised on a missing key is not modelled. These are `report["time"]`, `["url"]`, `["type"]`, `["method"]`, `["urlPath"]`, `["subnet"]` and `["imageName"]` in `main` of the report script; `container["network"]`, `["processes"]`, `["filesystem"]` and `["image"]` in `add_runtime_rule`; `["path"]` in the two path functions; and `["port"]` in `get_all_ports`. A model that supplies a field where the script raises matches only inputs that have every key.
- Malformed response bodies: a 200 response is modelled by its decoded list of events. A body that is not JSON (where `response.json()` raises) is not modelled. A `null` body, which `not events` treats as empty, corresponds to the empty page.
- `len` on Python strings counts code points. Here strings are sequences of characters, and lengths are their counts.
