/**
 * The request side of src/get_treasury_data.rs: the feed URL for a month,
 * the mapping of fetch and parse outcomes onto one error type, and the
 * single retry when the month has no entries.
 *
 * The network, the clock and the URL library are inputs: `Services` holds
 * the URL library's verdict on the base URL and the answers of the first
 * fetch and of the retry's fetch, and the two clock readings `get_data` takes
 * are parameters.
 */
module GetTreasuryData {
  import opened Outcomes
  import opened DateFormat
  import ParseTreasuryData

  type TreasuryBillRates = ParseTreasuryData.TreasuryBillRates

  const BaseUrl: string := "https://home.treasury.gov/resource-center/data-chart-center/interest-rates/pages/xml"
  const FeedKey: string := "data"
  const FeedName: string := "daily_treasury_bill_rates"
  const MonthKey: string := "field_tdr_date_value_month"

  /** A URL as the base string and its query pairs, in order, before percent-encoding. */
  datatype Url = Url(base: string, query: seq<(string, string)>)

  datatype ParseError = InvalidBaseUrl

  /** What fetching a URL yields: the body's reader events, or one of the two transport failures. */
  datatype FetchOutcome =
    | Body(events: seq<ParseTreasuryData.Event>)
    | SendFailed        // reqwest::get failed
    | BodyReadFailed    // reading the response bytes failed

  /**
   * The world outside the program: the URL library's verdict on a base URL, what
   * the first fetch of a URL yields, and what a fetch at the time of the retry
   * yields (the feed may have been published, or the network may fail, in between).
   */
  datatype Services = Services(
    acceptsBase: string -> bool,
    fetch: Url -> FetchOutcome,
    refetch: Url -> FetchOutcome)

  /** The services as the retry sees them. */
  function AtRetry(services: Services): (s: Services)
    ensures s.acceptsBase == services.acceptsBase && s.fetch == services.refetch
  {
    services.(fetch := services.refetch)
  }

  datatype TreasuryBillDataError = XMLParseError | RequestError | UrlParseError | NoEntries

  /** The result of one `make_request`, with the URLs it fetched. */
  datatype Reply = Reply(result: Result<TreasuryBillRates, TreasuryBillDataError>, fetched: seq<Url>)

  /** The result of `get_data`, with the timestamps it passed to `make_request` and every URL fetched. */
  datatype Exchange = Exchange(
    result: Result<TreasuryBillRates, TreasuryBillDataError>,
    requestedAt: seq<Timestamp>,
    fetched: seq<Url>)

  /** The value of the first query pair named `key`. */
  function QueryValue(query: seq<(string, string)>, key: string): Option<string>
  {
    if query == [] then None
    else if query[0].0 == key then Some(query[0].1)
    else QueryValue(query[1..], key)
  }

  /** `get_url`: the base URL with the feed selector and the date's month string. */
  function GetUrl(acceptsBase: string -> bool, date: Timestamp): (r: Result<Url, ParseError>)
    ensures r.Ok? <==> acceptsBase(BaseUrl)
    ensures r.Ok? ==> r.value.base == BaseUrl
    ensures r.Ok? ==> r.value.query == [(FeedKey, FeedName), (MonthKey, MonthString(date))]
  {
    if acceptsBase(BaseUrl) then Ok(Url(BaseUrl, [(FeedKey, FeedName), (MonthKey, MonthString(date))]))
    else Err(InvalidBaseUrl)
  }

  /** Decoding the query of the URL gives back the feed name and, as YYYYMM, the date's year and month. */
  lemma UrlNamesFeedAndMonth(acceptsBase: string -> bool, date: Timestamp)
    requires acceptsBase(BaseUrl)
    requires 0 <= date.year <= 9999
    ensures GetUrl(acceptsBase, date).Ok?
    ensures QueryValue(GetUrl(acceptsBase, date).value.query, FeedKey) == Some(FeedName)
    ensures QueryValue(GetUrl(acceptsBase, date).value.query, MonthKey).Some?
    ensures ParseMonthString(QueryValue(GetUrl(acceptsBase, date).value.query, MonthKey).value)
      == Some((date.year, date.month))
  {
    var q := GetUrl(acceptsBase, date).value.query;
    assert q[1..] == [(MonthKey, MonthString(date))];
    assert QueryValue(q, MonthKey) == Some(MonthString(date));
    MonthStringRoundTrip(date);
  }

  /** How a parse outcome appears as a request outcome: NoEntries and XMLParseError keep their kind. */
  predicate CarriesParseOutcome(
    p: Result<TreasuryBillRates, ParseTreasuryData.DoubleError>,
    r: Result<TreasuryBillRates, TreasuryBillDataError>)
  {
    match p
    case Ok(rates) => r == Ok(rates)
    case Err(e) => r == Err(if e.NoEntries? then NoEntries else XMLParseError)
  }

  /** `make_request`: build the URL, fetch it, parse the body, and map every failure onto one error type. */
  function MakeRequest(services: Services, date: Timestamp): (r: Reply)
    ensures GetUrl(services.acceptsBase, date).Err? ==> r == Reply(Err(UrlParseError), [])
    ensures r.result == Err(UrlParseError) <==> GetUrl(services.acceptsBase, date).Err?
    ensures GetUrl(services.acceptsBase, date).Ok? ==> r.fetched == [GetUrl(services.acceptsBase, date).value]
    ensures GetUrl(services.acceptsBase, date).Ok? ==>
      match services.fetch(GetUrl(services.acceptsBase, date).value)
      case Body(events) => CarriesParseOutcome(ParseTreasuryData.Parse(events), r.result)
      case _ => r.result == Err(RequestError)
  {
    match GetUrl(services.acceptsBase, date)
    case Err(_) => Reply(Err(UrlParseError), [])
    case Ok(url) =>
      var result :=
        match services.fetch(url)
        case SendFailed => Err(RequestError)
        case BodyReadFailed => Err(RequestError)
        case Body(events) =>
          match ParseTreasuryData.Parse(events)
          case Ok(rates) => Ok(rates)
          case Err(e) =>
            match e
            case NoEntries => Err(NoEntries)
            case XMLParseError => Err(XMLParseError);
      Reply(result, [url])
  }

  /**
   * `get_data` as written: one request for the first clock reading and, only if it
   * found no entries, one more for the second clock reading `later`.  The source
   * computes `later` minus one month and drops the value, so the retry asks for
   * the month of `later` itself.
   */
  function GetData(services: Services, now: Timestamp, later: Timestamp): (x: Exchange)
    ensures 1 <= |x.requestedAt| <= 2 && x.requestedAt[0] == now
    ensures |x.requestedAt| == 2 <==> MakeRequest(services, now).result == Err(NoEntries)
    ensures |x.requestedAt| == 1 ==> x.result == MakeRequest(services, now).result
    ensures |x.requestedAt| == 2 ==> x.requestedAt[1] == later
    ensures |x.requestedAt| == 2 ==> x.result == MakeRequest(AtRetry(services), later).result
    ensures x.fetched == MakeRequest(services, now).fetched +
      (if |x.requestedAt| == 2 then MakeRequest(AtRetry(services), x.requestedAt[1]).fetched else [])
  {
    var first := MakeRequest(services, now);
    match first.result
    case Err(NoEntries) =>
      var second := MakeRequest(AtRetry(services), later);
      Exchange(second.result, [now, later], first.fetched + second.fetched)
    case _ => Exchange(first.result, [now], first.fetched)
  }

  /** `get_data` as evidently intended: the retry asks for the month before `later`. */
  function GetDataIntended(services: Services, now: Timestamp, later: Timestamp): (x: Exchange)
    ensures 1 <= |x.requestedAt| <= 2 && x.requestedAt[0] == now
    ensures |x.requestedAt| == 2 <==> MakeRequest(services, now).result == Err(NoEntries)
    ensures |x.requestedAt| == 1 ==> x.result == MakeRequest(services, now).result
    ensures |x.requestedAt| == 2 ==> x.requestedAt[1] == PreviousMonth(later)
    ensures |x.requestedAt| == 2 ==> x.result == MakeRequest(AtRetry(services), PreviousMonth(later)).result
    ensures x.fetched == MakeRequest(services, now).fetched +
      (if |x.requestedAt| == 2 then MakeRequest(AtRetry(services), x.requestedAt[1]).fetched else [])
  {
    var first := MakeRequest(services, now);
    match first.result
    case Err(NoEntries) =>
      var back := PreviousMonth(later);
      var second := MakeRequest(AtRetry(services), back);
      Exchange(second.result, [now, back], first.fetched + second.fetched)
    case _ => Exchange(first.result, [now], first.fetched)
  }

  // ---------------------------------------------------------------------
  // Properties of the request policy
  // ---------------------------------------------------------------------

  /** Only the month of a timestamp reaches the request. */
  lemma RequestDependsOnMonthOnly(services: Services, t1: Timestamp, t2: Timestamp)
    requires t1.year == t2.year && t1.month == t2.month
    ensures MakeRequest(services, t1) == MakeRequest(services, t2)
  {
    assert MonthString(t1) == MonthString(t2);
  }

  /** When the month before has data, a month without entries falls back to it: two fetches, its record. */
  lemma FallbackScenario(services: Services, now: Timestamp, later: Timestamp,
                         empty: seq<ParseTreasuryData.Event>, full: seq<ParseTreasuryData.Event>)
    requires services.acceptsBase(BaseUrl)
    requires services.fetch(Url(BaseUrl, [(FeedKey, FeedName), (MonthKey, MonthString(now))])) == Body(empty)
    requires ParseTreasuryData.ReadError !in empty
    requires ParseTreasuryData.StartElement(ParseTreasuryData.EntryName) !in empty
    requires services.refetch(Url(BaseUrl, [(FeedKey, FeedName), (MonthKey, MonthString(PreviousMonth(later)))])) == Body(full)
    requires ParseTreasuryData.ReadError !in full
    requires ParseTreasuryData.StartElement(ParseTreasuryData.EntryName) in full
    ensures GetDataIntended(services, now, later).result == Ok(ParseTreasuryData.Parse(full).value)
    ensures |GetDataIntended(services, now, later).fetched| == 2
  {
  }

  /** A transport failure on the first request is returned at once, after one fetch. */
  lemma TransportFailureNotRetried(services: Services, now: Timestamp, later: Timestamp)
    requires services.acceptsBase(BaseUrl)
    requires !services.fetch(GetUrl(services.acceptsBase, now).value).Body?
    ensures GetData(services, now, later) == Exchange(Err(RequestError), [now], [GetUrl(services.acceptsBase, now).value])
    ensures GetDataIntended(services, now, later) == GetData(services, now, later)
  {
  }

  /** A base URL the URL library rejects ends the request without any fetch. */
  lemma UrlFailureFetchesNothing(services: Services, now: Timestamp, later: Timestamp)
    requires !services.acceptsBase(BaseUrl)
    ensures GetData(services, now, later) == Exchange(Err(UrlParseError), [now], [])
  {
  }

  /**
   * As written, when both clock readings fall in the same month the retry fetches
   * the very URL that had no entries; unless the feed has changed in between,
   * it ends with NoEntries again.
   */
  lemma RetryRefetchesSameMonth(services: Services, now: Timestamp, later: Timestamp)
    requires now.year == later.year && now.month == later.month
    requires services.acceptsBase(BaseUrl)
    requires MakeRequest(services, now).result == Err(NoEntries)
    ensures GetData(services, now, later).fetched ==
      [GetUrl(services.acceptsBase, now).value, GetUrl(services.acceptsBase, now).value]
    ensures services.refetch(GetUrl(services.acceptsBase, now).value) ==
              services.fetch(GetUrl(services.acceptsBase, now).value) ==>
            GetData(services, now, later).result == Err(NoEntries)
  {
    RequestDependsOnMonthOnly(AtRetry(services), now, later);
  }

  /**
   * As intended, the retry fetches a different URL, whose month parameter decodes
   * to the calendar month before the first request's.
   */
  lemma IntendedRetryAsksPreviousMonth(services: Services, now: Timestamp, later: Timestamp)
    requires now.year == later.year && now.month == later.month
    requires 1 <= now.year <= 9999
    requires services.acceptsBase(BaseUrl)
    requires MakeRequest(services, now).result == Err(NoEntries)
    ensures |GetDataIntended(services, now, later).fetched| == 2
    ensures GetDataIntended(services, now, later).fetched[0] != GetDataIntended(services, now, later).fetched[1]
    ensures var back := PreviousMonth(now);
      QueryValue(GetDataIntended(services, now, later).fetched[1].query, MonthKey).Some? &&
      ParseMonthString(QueryValue(GetDataIntended(services, now, later).fetched[1].query, MonthKey).value)
        == Some((back.year, back.month))
  {
    var back := PreviousMonth(later);
    assert back.year == PreviousMonth(now).year && back.month == PreviousMonth(now).month;
    MonthStringInjective(now, back);
    UrlNamesFeedAndMonth(services.acceptsBase, back);
  }

  /**
   * A feed with one row for April 2024,
   * `<entry><INDEX_DATE>2024-04-30</INDEX_DATE></entry>`, and for every other
   * month, May 2024 among them, the entry-free document `<feed></feed>`.
   */
  function AprilOnlyFeed(url: Url): FetchOutcome
  {
    if url.query == [(FeedKey, FeedName), (MonthKey, "202404")]
    then Body([ParseTreasuryData.StartElement("entry"),
               ParseTreasuryData.StartElement("INDEX_DATE"), ParseTreasuryData.Characters("2024-04-30"),
               ParseTreasuryData.Other, ParseTreasuryData.Other])
    else Body([ParseTreasuryData.Other, ParseTreasuryData.StartElement("feed"),
               ParseTreasuryData.Other, ParseTreasuryData.Other])
  }

  lemma AprilMonthString()
    ensures MonthString(UtcDateTime(2024, 4, 14, 0)) == "202404"
  {
    var s := "202404";
    assert s[..4] == "2024" && s[4..] == "04";
    assert "2024"[..3] == "202" && "202"[..2] == "20" && "20"[..1] == "2" && "2"[..0] == "";
    assert Decimal("2024") == 2024;
    assert "04"[..1] == "0" && "0"[..0] == "";
    assert Decimal("04") == 4;
    MonthStringCanonical(s, UtcDateTime(2024, 4, 14, 0));
  }

  /**
   * The discrepancy on one input: in May 2024, with May not yet published at
   * either fetch, the code as written answers NoEntries while the intended
   * fallback serves April.
   */
  lemma SameMonthRetryMissesData()
    ensures var services := Services(_ => true, AprilOnlyFeed, AprilOnlyFeed);
      var may := UtcDateTime(2024, 5, 14, 0);
      GetData(services, may, may).result == Err(NoEntries) &&
      GetDataIntended(services, may, may).result.Ok?
  {
    var services := Services(_ => true, AprilOnlyFeed, AprilOnlyFeed);
    var may := UtcDateTime(2024, 5, 14, 0);
    var april := PreviousMonth(may);
    assert april == UtcDateTime(2024, 4, 14, 0);
    AprilMonthString();
    MonthStringInjective(may, april);
    var mayEvents := AprilOnlyFeed(GetUrl(services.acceptsBase, may).value).events;
    assert mayEvents == [ParseTreasuryData.Other, ParseTreasuryData.StartElement("feed"),
                         ParseTreasuryData.Other, ParseTreasuryData.Other];
    assert ParseTreasuryData.Parse(mayEvents) == Err(ParseTreasuryData.NoEntries);
    assert MakeRequest(services, may).result == Err(NoEntries);
    var aprilEvents := AprilOnlyFeed(GetUrl(services.acceptsBase, april).value).events;
    assert aprilEvents[0] == ParseTreasuryData.StartElement(ParseTreasuryData.EntryName);
    assert ParseTreasuryData.Parse(aprilEvents).Ok?;
  }
}
