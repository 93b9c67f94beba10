# Treasury bill-rate relay: a Dafny model of its extraction and fallback logic

The program fetches the U.S. Treasury's monthly XML feed of daily bill rates
and extracts seven fields from it into a `TreasuryBillRates` record. For each
field this is the last text seen anywhere in the feed while that element is
the one opened last. That includes text after the element's closing tag. So a
field missing from the last entry keeps the value of an earlier entry.
The server in src/main.rs, which was meant to serve that record, routes
`get()` without a handler and does not compile. The logic lives in two places:

- **The bill-rate extractor** (`src/parse_treasury_data.rs`). It consumes the
  event stream of an XML reader and keeps three pieces of state: the local name
  of the element opened last (`current_catagory`), whether an `entry` element was
  opened (`found_entry`), and a map from field name to text (`rates`). Text is
  stored only under the seven whitelisted names of `FIELD_VALUES`, and later text
  overwrites earlier text. The first reader error aborts with `XMLParseError`.
  A stream without `entry` gives `NoEntries`. Otherwise the map is projected
  onto the seven-field `TreasuryBillRates` record, and a missing field becomes `""`.
- **The request policy** (`src/get_treasury_data.rs`). `get_url` builds the feed
  URL for a month (`%Y%m`). `make_request` fetches and parses it and maps every
  failure onto `TreasuryBillDataError`. `get_data` retries once, and only when the
  first answer is `NoEntries`.

The model has four modules, one per file:

- `Outcomes` (outcomes.dfy): `Option` and `Result`.
- `ParseTreasuryData` (parse_treasury_data.dfy): the reader events, the record and the
  whitelist. It has a declarative specification `Parse`, which describes each field
  as the text of the last character event seen while that element was current. It
  has the extractor as two imperative methods:
  - `ScanEvents` is the event loop, with the state variables of the source.
  - `ParseTreasuryXml` does the entry check and fills the record field by field.

  Each method is proved against `Parse`, and lemmas prove the extractor's properties
  about `Parse`.
- `DateFormat` (date_format.dfy): chrono's `%Y%m` formatting together with a decoder
  that reads the string back, and the one-month step back that `checked_sub_months`
  computes.
- `GetTreasuryData` (get_treasury_data.dfy): `GetUrl`, `MakeRequest`, `GetData`
  and the corrected `GetDataIntended`. They are pure functions over a `Services`
  value. That value holds the URL library's verdict on the base URL, the answer of
  the first fetch and the answer of the retry's fetch. Every function returns the
  fetched URLs alongside the result.

Inputs and abstractions:

- The XML reader is the event datatype `StartElement(localName)`, `Characters(text)`,
  `ReadError` or `Other`. `Other` covers end elements, whitespace and everything else.
- The two network steps are `reqwest::get` and reading the response bytes. They are
  oracles of type `Url -> FetchOutcome`: `fetch` answers the first request of a
  `get_data` call and `refetch` answers its retry. The two may disagree, because the
  feed can be published or the network can fail in between.
- `Url::parse` of the constant base URL is the input `acceptsBase`.
- The two `Utc::now()` readings of `get_data` are the parameters `now` and `later`.

## Model

| member | source | states |
|---|---|---|
| ParseTreasuryData.ScanEvents | src/parse_treasury_data.rs:33-55 | fails with XMLParseError exactly when the stream holds a reader error; otherwise ends with found_entry true iff an `entry` element was opened, the current element equal to the name of the last element opened, and a field map whose keys are all whitelisted and whose values are the last text under each key |
| ParseTreasuryData.ParseTreasuryXml | src/parse_treasury_data.rs:28-90 | equals `Parse`; XMLParseError iff a reader error occurs; NoEntries iff there is no error and no `entry`; on success each of the seven fields is the last text under its element, or "" if it got none |
| ParseTreasuryData.Parse | src/parse_treasury_data.rs:28-90 | the declarative reference result the two methods are proved against: error check first, then the entry check, then the projection of the collected text |
| ParseTreasuryData.FieldOfProject | src/parse_treasury_data.rs:68-88 | each record field is read from its own key of the map and from no other |
| ParseTreasuryData.CategoryIgnoresNonStart | src/parse_treasury_data.rs:36-54 | an event that is not a start element never changes the current element, at that point or later |
| ParseTreasuryData.CategoryIsLastStart | src/parse_treasury_data.rs:38-39 | an opened element stays current until the next start element, whatever end elements or text follow |
| ParseTreasuryData.TextIgnoresEvent | src/parse_treasury_data.rs:44-47 | an event that is neither a start element nor text under element k leaves what is recorded for k unchanged |
| ParseTreasuryData.ErrorWins | src/parse_treasury_data.rs:49-51 | a reader error yields XMLParseError even when an `entry` and fields were seen before it and whatever follows it |
| ParseTreasuryData.OtherEventsInvisible | src/parse_treasury_data.rs:52-53 | removing or inserting an end element or any other non-element event does not change the result |
| ParseTreasuryData.TextUnderUnlistedElementIgnored | src/parse_treasury_data.rs:45-46 | text under an element outside the whitelist does not change the result |
| ParseTreasuryData.TextFillsOnlyItsField | src/parse_treasury_data.rs:44-47 | text under one element changes neither the success of the parse nor any field other than that element's |
| ParseTreasuryData.TextSurvivesUntilOverwritten | src/parse_treasury_data.rs:44-47 | text under element k remains the recorded value for k until text arrives while k is current again; text under other elements does not disturb it |
| ParseTreasuryData.LastTextWins | src/parse_treasury_data.rs:46 | a whitelisted field holds the last text seen under it; only later text under the same element overwrites it |
| ParseTreasuryData.ScenarioFourWeekField | src/parse_treasury_data.rs:44-47 | in the worked row the 4-week field keeps "5.10" although the date's text comes after it |
| ParseTreasuryData.FieldIsLastTextOrEmpty | src/parse_treasury_data.rs:56-88 | with an entry and no error the parse succeeds and each field is its last text, or "" when it received none |
| ParseTreasuryData.BillRateScenario | src/parse_treasury_data.rs:28-90 | a row holding the 4-week yield "5.10" and the date "2024-05-01" gives those two fields and "" for the other five |
| ParseTreasuryData.FieldOutsideEntryCollected | src/parse_treasury_data.rs:40-47 | in a well-formed document, text is collected even under an element opened before the `entry` element |
| DateFormat.MonthString | src/get_treasury_data.rs:21 | for years 0 to 9999 the month string is six digits; otherwise it starts with the year's sign; it always ends with the month as two digits |
| DateFormat.YearStringShape | src/get_treasury_data.rs:21 | `%Y` gives four digits for years 0 to 9999; otherwise it gives a sign followed by at least four digits whose value is the year's absolute value |
| DateFormat.MonthStringRoundTrip | src/get_treasury_data.rs:21 | decoding the month string as YYYYMM gives back the date's year and month |
| DateFormat.MonthStringCanonical | src/get_treasury_data.rs:21 | every six-digit string that decodes to a year and a valid month is that month's string |
| DateFormat.MonthStringInjective | src/get_treasury_data.rs:21 | for years 0 to 9999 two dates share a month string exactly when they share year and month |
| DateFormat.PreviousMonth | src/get_treasury_data.rs:64 | the result is one calendar month earlier, its day is clamped to that month's length, and its time of day is unchanged |
| GetTreasuryData.GetUrl | src/get_treasury_data.rs:20-23 | fails exactly when the URL library rejects the base URL; otherwise the URL is the base with exactly the two query pairs `data=daily_treasury_bill_rates` and `field_tdr_date_value_month=<month string>`, in that order |
| GetTreasuryData.UrlNamesFeedAndMonth | src/get_treasury_data.rs:20-23 | decoding the built URL's query gives the feed name and a month value that reads back as the date's year and month |
| GetTreasuryData.RequestDependsOnMonthOnly | src/get_treasury_data.rs:20-23 | two timestamps in the same month lead to the same request and the same reply |
| GetTreasuryData.MakeRequest | src/get_treasury_data.rs:26-55 | a URL failure gives UrlParseError with nothing fetched; otherwise exactly the built URL is fetched, either transport failure gives RequestError, and a parse outcome passes through with NoEntries and XMLParseError keeping their kind |
| GetTreasuryData.UrlFailureFetchesNothing | src/get_treasury_data.rs:50-51 | get_data ends with UrlParseError after one request and no fetch when the base URL is rejected |
| GetTreasuryData.GetData | src/get_treasury_data.rs:57-72 | makes one or two requests, the second exactly when the first returned NoEntries; it returns the first result otherwise and the second result as it is; the retry fetches again, for the second clock reading itself; the fetched URLs are exactly those of the one or two requests, in order |
| GetTreasuryData.TransportFailureNotRetried | src/get_treasury_data.rs:67-68 | a transport failure on the first request is returned at once after one fetch |
| GetTreasuryData.RetryRefetchesSameMonth | src/get_treasury_data.rs:63-65 | when both clock readings fall in one month and the first request found no entries, the retry fetches the same URL again; if the feed answers the retry as it answered the first fetch, the result is NoEntries |
| GetTreasuryData.SameMonthRetryMissesData | src/get_treasury_data.rs:63-65 | in May 2024, with only April published at both fetches, the code as written answers NoEntries while the intended fallback succeeds |
| GetTreasuryData.GetDataIntended | src/get_treasury_data.rs:62-65 | like GetData, except that the retry asks for the month before the second clock reading; the fetched URLs are exactly those of the one or two requests, in order |
| GetTreasuryData.IntendedRetryAsksPreviousMonth | src/get_treasury_data.rs:62-65 | in the intended policy the retry fetches a different URL, and its month value decodes to the previous calendar month |
| GetTreasuryData.FallbackScenario | src/get_treasury_data.rs:62-65 | with an empty current month at the first fetch and a filled previous month at the retry, the intended policy returns the previous month's record after exactly two fetches |

## Findings

| source | as written | input that shows it | evidently intended | confidence | as-written member | corrected member |
|---|---|---|---|---|---|---|
| src/get_treasury_data.rs:63-65 | the value of `x.checked_sub_months(Months::new(1))` is discarded, so the retry runs `make_request(x)` with `x` a fresh `Utc::now()` | both clock readings in May 2024; at both fetches the May feed has no `entry` and the April feed has one row; the May URL is fetched twice and the result is NoEntries | retry against the previous calendar month, so April's row is served. The corrected member still takes the month before the second clock reading, as line 64 does. When a month boundary falls between the two readings, for example 2024-04-30 23:59:59 and then 2024-05-01 00:00:00, it therefore fetches the first month again | not executed; the discarded value is visible in the text | GetTreasuryData.RetryRefetchesSameMonth (with the concrete case GetTreasuryData.SameMonthRetryMissesData) | GetTreasuryData.GetDataIntended (property: GetTreasuryData.IntendedRetryAsksPreviousMonth) |

## Left out

- XML tokenising and well-formedness checking (the xml-rs `EventReader`) are foreign code. The model starts from the event stream. In particular, which events xml-rs yields for an empty or malformed body is not modelled. An empty event stream gives NoEntries; a stream the reader reports broken contains `ReadError`.
- The error payloads (`xml::reader::Error`, `reqwest::Error`, `url::ParseError`) are opaque library values. Each error kind is a payload-free constructor, so the model does not show which reader error is the first one. `ErrorWins` shows instead that nothing after the first error matters.
- `reqwest::get` and `resp.bytes()` are network I/O and async code. They are the `fetch` oracle. reqwest does not fail on an HTTP error status, so an error page is just a `Body` that the parser handles.
- `Utc::now()` is the wall clock. Its two readings are parameters. Each reading is a
  date the calendar has, with a time of day below 86400 seconds. Of a `DateTime<Utc>` only the year, month, day and second of the day are kept.
- `Url::parse_with_params` comes from the url library. Its verdict on the constant base URL is an input, and its percent-encoding is not modelled. The query is kept as the list of decoded pairs.
- `PreviousMonth`: chrono's supported year range, where `checked_sub_months` returns `None`, is not modelled, because years are unbounded here. The source discards that value anyway.
- The outer `Json` wrapper is framework plumbing and is not modelled. `TreasuryBillRates` derives only `Debug`, so the source defines no JSON encoding of the record.
- src/main.rs (tracing set-up, one route registered without a handler, the bind to 127.0.0.1:3000) is not part of this model. It does not compile as written, and nothing in it calls `get_data`.
- There is no yield-curve feed in these files, so none is modelled.
