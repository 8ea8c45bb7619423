# Baby-name explorer: a verified model of the page's view-model

The page lets a user pick a baby name from a selector, fetches that name's
records (one per year, each with a rank and possibly a meaning) and draws
one labelled bar per year, with the name's meaning under the graph. Page
load fetches every record and fills the selector with the distinct names.

This project models the deterministic core of `names.js` in Dafny:

- `Records`: a record (name, year, rank, meaning) and the pure parts of the
  view: the year order, the bar geometry and styling (`GraphOf`) and the
  meaning text (`MeaningText`).
- `NameExplorer`: the page as a class `Page` with the fields `options`,
  `disabled`, `graph`, `meaning` and `error`. It also has a `requests` log of
  the requests issued. Its methods are `populateSelect`, `drawGraph`,
  `createYearLabel`, `createRankingBar`, `displayMeaning`, `showError`, the
  three `clear*` helpers, the change handler `onNameChange` and the load-time
  request (`LoadNames`). `SortByYear` sorts an array of records in place.
  `UniqueSortedNames` builds the selector's name list.
- `Http`: the response fields the page reads, `checkStatus`, and the promise
  chain fetch, checkStatus, json (`Body`). A request's outcome is an argument:
  `Ok(response)` or `Err(message)` for a transport failure. A response carries
  its status, its reason phrase and the result of decoding its body as JSON.
- Supporting modules, one per library behaviour the code relies on:
  - `Trimming`: `String.prototype.trim` over the exact ECMAScript
    WhiteSpace and LineTerminator set.
  - `Numerals`: how a status number is rendered in a template literal.
  - `Collation`: the default string order of `Array.prototype.sort`.
  - `Sorting`: an in-place sort by a comparator.
  - `Distinct`: `Array.from(new Set(...))`.
  - `Wrappers`: `Option` and `Result`.

Each operation has a partner:

- Sorting: sorted and a permutation of its input.
- Trim: a characterisation as the white-space-framed slice, proved unique,
  plus idempotence.
- The status message: a parser that reads status and reason phrase back,
  and accepts no other spelling of them.
- The default string order: ECMAScript's IsLessThan on strings.
- The selector: options that the records alone determine.
- The graph: a per-index statement of every label and bar.

A natural expectation of the page is not met by the code. Take two "Ava"
records: 2020 with rank 5 and meaning " life ", and 2019 with rank 0 and no
meaning. One would expect the page to show the meaning "life". The code shows
the trimmed meaning of the first record after sorting (names.js:42-44, 120).
That is the 2019 record, which has no meaning, so the code shows "". The
model follows the code: `NameExplorer.AvaExample` proves `meaning == ""` for
exactly this input.

## Model

| member | source | states |
|---|---|---|
| Trimming.TrimStart | names.js:120 | the leading part of trim: the result is a suffix of the input, everything dropped is white space, and it does not start with white space |
| Trimming.TrimEnd | names.js:120 | the trailing part of trim: the result is a prefix of the input, everything dropped is white space, and it does not end with white space |
| Trimming.Trim | names.js:120 | `meaning.trim()`: the result is a slice of the input framed only by white space, and it has no white space at either end |
| Trimming.TrimEmptyIffBlank | names.js:120 | trim yields "" exactly when the string is blank, which is when the `\|\| ""` default decides the text |
| Trimming.TrimUnique | names.js:120 | any slice framed by white space that starts and ends with a non-space is the trim: Trim's contract determines it |
| Trimming.TrimIdempotent | names.js:120 | trimming an already trimmed meaning changes nothing |
| Numerals.Decimal | names.js:129 | the status number in the error message is written as a non-empty run of decimal digits, with a leading 0 only for 0 |
| Numerals.DecimalRoundTrip | names.js:129 | reading those digits back gives the status number |
| Numerals.DecimalOfCanonical | names.js:129 | conversely, a digit string with no superfluous leading zero is the decimal form of the number it denotes |
| Collation.Precedes | names.js:61 | the default string order of `.sort()`; `PrecedesIsLessThan` states what it is |
| Collation.PrecedesIsLessThan | names.js:61 | a sorts before b exactly when, after a common prefix, either a ends while b goes on or a's next character is the smaller (ECMAScript's IsLessThan on strings) |
| Collation.PrecedesIrreflexive | names.js:61 | no name sorts before itself under the default string order |
| Collation.PrecedesTransitive | names.js:61 | the default string order is transitive |
| Collation.PrecedesTotal | names.js:61 | of two different names, one sorts before the other |
| Collation.NotAfterIsTotalPreorder | names.js:61 | the comparison the default `.sort()` uses orders every pair and is transitive, as a sort needs |
| Collation.AscendingUnique | names.js:61 | two strictly ascending name lists that hold the same names are equal |
| Sorting.SortInPlace | names.js:75 | `Array.prototype.sort` with a comparator: afterwards the array is ordered by the comparator and is a permutation of what it held |
| Distinct.Dedup | names.js:61 | `Array.from(new Set(names))`: the same names as its input, none counted twice |
| Distinct.CountedOnceDistinct | names.js:61 | a list in which no name is counted twice has no name at two positions |
| Http.Response.IsOk | names.js:128 | `response.ok`: the status is a 2xx code, three digits of which the first is 2 |
| Http.StatusMessage | names.js:129 | the message checkStatus throws starts with "HTTP " and ends with the reason phrase |
| Http.StatusMessageRoundTrip | names.js:129 | the message `HTTP <status> - <statusText>` yields its status and reason phrase back without loss |
| Http.StatusMessageParsedBack | names.js:129 | the only message that reads back as a given status and reason phrase is `HTTP <status> - <statusText>` itself |
| Http.CheckStatus | names.js:127-132 | an ok response (status 200-299) passes through unchanged; any other fails with exactly the message `HTTP <status> - <statusText>`, which reads back to its status and reason phrase |
| Http.Body | names.js:35-38 | the chain fetch, checkStatus, json ends in the first failure's message (the transport's message, exactly `HTTP <status> - <statusText>` for a failed status, or the JSON parser's message) or yields the decoded body of an ok response |
| Records.RankOf | names.js:83 | the rank read from a record is the "no data" sentinel 0 exactly when the rank is missing or 0, and otherwise the record's rank |
| Records.ByYearIsTotalPreorder | names.js:75 | the year comparator orders every pair of records and is transitive |
| Records.EarliestFirst | names.js:42-44 | after sorting, the first record is one of the fetched records and has the earliest year |
| Records.TwoYearsOrdered | names.js:75 | two records with different years can be sorted only one way: the earlier one first |
| Records.Left | names.js:84 | the i-th offset lies on a 60-pixel grid starting at 10, and i reads back from it |
| Records.BarHeight | names.js:85 | a bar is 0 high for rank 0 and otherwise `Math.floor((1000 - rank) / 4)` high, the largest height h with 4h <= 1000 - rank |
| Records.BarLabel | names.js:111 | the bar reads "(no data)" exactly for rank 0 and the rank otherwise |
| Records.BarColour | names.js:112 | the bar is red exactly for the ranks 1 to 10 |
| Records.BarHeightRange | names.js:85 | for ranks 1 to 1000, a bar is 0 to 249 pixels high |
| Records.BarHeightNonIncreasing | names.js:85 | a better (smaller) rank never gets a shorter bar |
| Records.GraphOf | names.js:82-89 | drawing emits exactly one label and one bar per record, labels and bars alternating, a label first |
| Records.GraphOfAt | names.js:82-89 | the i-th label shows the i-th record's year at 10 + 60i. Its bar is at the same offset. The bar's height is 0 for rank 0 (missing ranks read as 0) and floor((1000 - rank)/4) otherwise. Its text is "(no data)" exactly for rank 0 and the rank otherwise. It is red exactly for ranks 1 to 10 |
| Records.LabelsAscend | names.js:42-43 | drawn from year-sorted records, the labels show ascending years and run strictly left to right |
| Records.MeaningText | names.js:120 | the meaning shown for a record is "" exactly when its meaning is absent or blank; otherwise it is the trimmed meaning |
| NameExplorer.FetchFailure | names.js:47 | the change handler's failure message quotes the selected name and ends with the failure's own message |
| NameExplorer.NoDataMessage | names.js:40 | the no-data message quotes the selected name |
| NameExplorer.LoadFailure | names.js:18 | the load-time failure message ends with the failure's own message |
| NameExplorer.ListsNamesOfUnique | names.js:54-68 | the fetched records alone decide the selector's options |
| NameExplorer.SortByYear | names.js:74-76 | sortByYear: afterwards the records are in non-decreasing year order and are a permutation of the input |
| NameExplorer.UniqueSortedNames | names.js:61 | the name list holds every name of the records exactly once, in strictly ascending order |
| NameExplorer.Page.constructor | names.js:8-11 | the page starts with an empty, disabled selector and empty graph, meaning and error regions |
| NameExplorer.Page.ShowError | names.js:137-139 | showError sets the error region and changes nothing else |
| NameExplorer.Page.ClearGraph | names.js:142 | clearGraph empties the graph region and changes nothing else |
| NameExplorer.Page.ClearMeaning | names.js:144 | clearMeaning empties the meaning region and changes nothing else |
| NameExplorer.Page.ClearError | names.js:146 | clearError empties the error region and changes nothing else |
| NameExplorer.Page.CreateYearLabel | names.js:95-101 | appends one label with the year at the given offset; nothing else changes |
| NameExplorer.Page.CreateRankingBar | names.js:106-114 | appends one bar at the given offset and height, reading "(no data)" for rank 0 and the rank otherwise, red for ranks 1 to 10 and black otherwise |
| NameExplorer.Page.DrawGraph | names.js:81-90 | the graph becomes its old items followed by `GraphOf` of the records, one label and bar per record in order; nothing else changes |
| NameExplorer.Page.DisplayMeaning | names.js:119-122 | the meaning region shows `MeaningText` of the first record; nothing else changes |
| NameExplorer.Page.PopulateSelect | names.js:53-69 | the options become the placeholder (value "", text "Select a name...") followed by each distinct name once, ascending, each showing its own name; the selector is enabled; the other regions are unchanged |
| NameExplorer.Page.OnNameChange | names.js:26-48 | The selector is left unchanged in every case. The empty name clears graph, meaning and error and issues no request. A real name issues one request and shows one of three results. (1) On a transport, status or JSON failure: graph and meaning are empty, and the error is `Error fetching data for '<name>': <message>`. (2) On no records: graph and meaning are empty, and the error is `No data available for '<name>'.`. (3) Otherwise: the graph is a year-sorted permutation of the records, drawn; the meaning is the earliest record's; the error is empty |
| NameExplorer.Page.ShowEntries | names.js:38-46 | the callback on a name's records: with none, only the error region changes, to the no-data message; otherwise the records, sorted by year and permuted only, are appended to the graph, the first one's meaning is shown, and nothing else changes |
| NameExplorer.Page.LoadNames | names.js:14-18 | the load-time request: on success the selector lists the names and is enabled. On a transport, status or JSON failure the error region shows `Failed to load names: <message>` and the selector is left as it was (disabled and empty on a fresh page) |
| NameExplorer.AvaExample | names.js:42-44 | for the records 2020/rank 5/" life " and 2019/rank 0/no meaning, the 2019 bar is drawn first: flat, "(no data)", black. The 2020 bar follows: 248 high, 5, red. The meaning is "" |

## Left out

- `fetch`, `response.json()` and the promise callbacks (names.js:14-18, 35-47)
  are not executed. The outcome of each request is an argument:
  `Err(message)` for a transport failure, or a response whose JSON decoding
  result is part of it. The `requests` field records that a request was issued.
- The race between overlapping record requests: its point is the
  interleaving of asynchronous callbacks, which this sequential model does
  not have.
- DOM details: element creation, `innerHTML`, CSS class names, pixel strings,
  and `window.onload` and the `change` listener wiring (names.js:5-21). The
  graph is a sequence of abstract label and bar items. The page's markup is
  not part of this model, so the constructor's disabled, empty selector is
  an assumption about that markup.
- `encodeURIComponent` (names.js:35): the request log holds the name itself,
  not its percent-encoded form (section 2.1 of RFC 3986).
- `parseInt` (names.js:75, 83): years and ranks are integers already. A rank
  that does not parse (NaN) is not modelled. An absent rank and an empty rank
  string are both `None`, which reads as the sentinel 0. The year label shows
  the integer year, not the raw string of the record.
- The decoded body is assumed to be an array of records, each with a name
  string and a meaning that is a string or absent. Other bodies are not
  modelled. A body that is not an array makes line 61 throw after lines
  54-58 have already emptied the selector and added the placeholder. The page
  is then left with only the placeholder, still disabled, and the load
  failure message. A meaning that is neither a string nor null makes line
  120 throw after line 43 has drawn the graph. The page then shows the graph
  beside `Error fetching data for '<name>': <message>`. A `null` record makes
  line 61 throw in the same way, or line 75 or 83 before anything is drawn.
- `Collation.Precedes` compares characters by code point. JavaScript compares
  UTF-16 code units. The two orders differ only between characters above
  U+FFFF and characters from U+E000 to U+FFFF.
- `Sorting.SortInPlace` is an insertion sort standing in for the JavaScript
  engine's own algorithm. The code relies only on the result being sorted and
  a permutation, and it does not rely on stability.
- Distinct.Dedup: does not state that names keep the order in which they
  first appear, because the sort that follows discards that order.
- Bar heights for ranks above 1000 (negative) and below 0 (taller than
  249) are computed as the code computes them. What a browser does with such
  a height is not modelled.
- Dafny's `/` on `int` rounds toward negative infinity when the divisor is
  positive, so `(1000 - rank) / 4` is `Math.floor((1000 - rank) / 4)` for
  every rank.
