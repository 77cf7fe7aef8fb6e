/** Validation in the `/api/neo` handlers (backend/routes/neo.js). Each handler
    runs an ordered chain of checks; the first that fails decides the 400
    response. A request that passes becomes the call made to the service. */
module NeoRoutes {
  import opened Outcomes
  import opened Text
  import opened Dates
  import opened Query

  /** The 400 responses of the NEO routes. */
  datatype NeoError =
    | MissingDates
    | InvalidDateFormat
    | RangeTooLarge
    | InvalidDateRange
    | InvalidPage
    | InvalidBrowsePage
    | InvalidSize
    | MissingAsteroidId

  /** The `error` field of the response body. */
  function ErrorTitle(e: NeoError): string
  {
    match e
    case MissingDates => "Missing date parameters"
    case InvalidDateFormat => "Invalid date format"
    case RangeTooLarge => "Date range too large"
    case InvalidDateRange => "Invalid date range"
    case InvalidPage => "Invalid page number"
    case InvalidBrowsePage => "Invalid page number"
    case InvalidSize => "Invalid size parameter"
    case MissingAsteroidId => "Missing asteroid ID"
  }

  /** The `message` field of the response body. */
  function ErrorMessage(e: NeoError): string
  {
    match e
    case MissingDates => "Both start_date and end_date are required (YYYY-MM-DD format)"
    case InvalidDateFormat => "Dates must be in YYYY-MM-DD format"
    case RangeTooLarge => "Date range cannot exceed 7 days for free API tier"
    case InvalidDateRange => "Start date must be before or equal to end date"
    case InvalidPage => "Page must be a positive integer"
    case InvalidBrowsePage => "Page must be a non-negative integer"
    case InvalidSize => "Size must be between 1 and 100"
    case MissingAsteroidId => "Asteroid ID is required"
  }

  /** Every validation failure is answered with HTTP 400. */
  const BadRequestStatus: int := 400

  /** The free API tier allows at most this many days between the two dates. */
  const MaxSpanDays: int := 7
  const MinPageSize: int := 1
  const MaxPageSize: int := 100

  /** Query of `GET /api/neo`. */
  datatype NeoQuery = NeoQuery(startDate: Param, endDate: Param, page: NumParam, size: NumParam)

  /** The service call `getNEOData` a valid `GET /api/neo` request makes. */
  datatype NeoCall = NeoCall(startDate: string, endDate: string, page: int, size: int)

  predicate DatesPresent(start: Param, end: Param)
  {
    Truthy(start) && Truthy(end)
  }

  predicate DatesShaped(start: Param, end: Param)
  {
    start.Given? && end.Given? && HasDateShape(start.text) && HasDateShape(end.text)
  }

  /** `Math.ceil((endDate - startDate) / day) > 7`; false when either date is
      an Invalid Date, since the difference is then `NaN`. */
  predicate SpanTooLarge(start: Option<int>, end: Option<int>)
  {
    start.Some? && end.Some? && end.value - start.value > MaxSpanDays
  }

  /** `isNaN(n) || n < 1 || n > 100`. */
  predicate BadSize(n: JsInt)
  {
    n.NaN? || n.value < MinPageSize || n.value > MaxPageSize
  }

  /** The shared prefix of the `/` and `/feed` handlers: presence, then shape. */
  function CheckDates(start: Param, end: Param): (r: Result<(Option<int>, Option<int>), NeoError>)
    ensures r == Err(MissingDates) <==> !DatesPresent(start, end)
    ensures r == Err(InvalidDateFormat) <==> DatesPresent(start, end) && !DatesShaped(start, end)
    ensures r.Ok? <==> DatesPresent(start, end) && DatesShaped(start, end)
    ensures r.Ok? ==> r.value == (ParseIsoDate(start.text), ParseIsoDate(end.text))
  {
    if !Truthy(start) || !Truthy(end) then Err(MissingDates)
    else if !HasDateShape(start.text) || !HasDateShape(end.text) then Err(InvalidDateFormat)
    else Ok((ParseIsoDate(start.text), ParseIsoDate(end.text)))
  }

  /** The dates of a `GET /api/neo` query pass all four date checks. */
  predicate DatesAccepted(q: NeoQuery)
  {
    && DatesPresent(q.startDate, q.endDate) && DatesShaped(q.startDate, q.endDate)
    && !SpanTooLarge(ParseIsoDate(q.startDate.text), ParseIsoDate(q.endDate.text))
    && !StartAfterEnd(ParseIsoDate(q.startDate.text), ParseIsoDate(q.endDate.text))
  }

  /** `GET /api/neo`: presence, shape, span of at most 7 days, order, page,
      size, in that order; page defaults to 1 and size to 20. */
  function ValidateNeoQuery(q: NeoQuery): (r: Result<NeoCall, NeoError>)
    ensures r == Err(MissingDates) <==> !DatesPresent(q.startDate, q.endDate)
    ensures r == Err(InvalidDateFormat) <==>
      DatesPresent(q.startDate, q.endDate) && !DatesShaped(q.startDate, q.endDate)
    ensures r == Err(RangeTooLarge) <==>
      && DatesPresent(q.startDate, q.endDate) && DatesShaped(q.startDate, q.endDate)
      && SpanTooLarge(ParseIsoDate(q.startDate.text), ParseIsoDate(q.endDate.text))
    ensures r == Err(InvalidDateRange) <==>
      && DatesPresent(q.startDate, q.endDate) && DatesShaped(q.startDate, q.endDate)
      && StartAfterEnd(ParseIsoDate(q.startDate.text), ParseIsoDate(q.endDate.text))
    ensures r == Err(InvalidPage) <==> DatesAccepted(q) && BadPage(ParamValue(q.page, 1))
    ensures r == Err(InvalidSize) <==>
      DatesAccepted(q) && !BadPage(ParamValue(q.page, 1)) && BadSize(ParamValue(q.size, 20))
    ensures r.Ok? <==>
      DatesAccepted(q) && !BadPage(ParamValue(q.page, 1)) && !BadSize(ParamValue(q.size, 20))
    ensures r.Ok? ==>
      && r.value.startDate == q.startDate.text && r.value.endDate == q.endDate.text
      && r.value.page >= 1 && MinPageSize <= r.value.size <= MaxPageSize
      && Int(r.value.page) == ParamValue(q.page, 1) && Int(r.value.size) == ParamValue(q.size, 20)
  {
    match CheckDates(q.startDate, q.endDate)
    case Err(e) => Err(e)
    case Ok((start, end)) =>
      if SpanTooLarge(start, end) then Err(RangeTooLarge)
      else if StartAfterEnd(start, end) then Err(InvalidDateRange)
      else
        var page, size := ParamValue(q.page, 1), ParamValue(q.size, 20);
        if BadPage(page) then Err(InvalidPage)
        else if BadSize(size) then Err(InvalidSize)
        else Ok(NeoCall(q.startDate.text, q.endDate.text, page.value, size.value))
  }

  /** A span longer than seven days and a start after the end cannot both
      hold, so the order of those two checks never matters. */
  lemma SpanAndOrderExclusive(start: Option<int>, end: Option<int>)
    ensures !(SpanTooLarge(start, end) && StartAfterEnd(start, end))
  {
  }

  /** A seven-day span passes the date checks; an eight-day span does not. */
  lemma SevenDaysIsTheLimit()
    ensures ValidateNeoQuery(NeoQuery(Given("2024-01-01"), Given("2024-01-08"), Omitted, Omitted))
      == Ok(NeoCall("2024-01-01", "2024-01-08", 1, 20))
    ensures ValidateNeoQuery(NeoQuery(Given("2024-01-01"), Given("2024-01-09"), Omitted, Omitted))
      == Err(RangeTooLarge)
  {
    assert ParseIsoDate("2024-01-01") == Some(CivilDay(2024, 1, 1));
    assert ParseIsoDate("2024-01-08") == Some(CivilDay(2024, 1, 8));
    assert ParseIsoDate("2024-01-09") == Some(CivilDay(2024, 1, 9));
  }

  /** A well-shaped but impossible date such as month 13 is an Invalid Date:
      the span and order checks compare with `NaN`, both fail, and the request
      goes through to the upstream call. */
  lemma ImpossibleMonthPassesValidation()
    ensures ValidateNeoQuery(NeoQuery(Given("2024-13-01"), Given("2024-01-02"), Omitted, Omitted))
      == Ok(NeoCall("2024-13-01", "2024-01-02", 1, 20))
  {
    assert ParseIsoDate("2024-13-01") == None;
  }

  /** Query of `GET /api/neo/feed`. */
  datatype FeedQuery = FeedQuery(startDate: Param, endDate: Param, detailed: Param)

  /** The service call `getNEOFeed` a valid feed request makes. */
  datatype FeedCall = FeedCall(startDate: string, endDate: string, detailed: bool)

  /** `GET /api/neo/feed`: presence and shape only; `detailed` is true only
      for the exact text 'true' (default 'false'). */
  function ValidateFeedQuery(q: FeedQuery): (r: Result<FeedCall, NeoError>)
    ensures r == Err(MissingDates) <==> !DatesPresent(q.startDate, q.endDate)
    ensures r == Err(InvalidDateFormat) <==>
      DatesPresent(q.startDate, q.endDate) && !DatesShaped(q.startDate, q.endDate)
    ensures r.Ok? <==> DatesPresent(q.startDate, q.endDate) && DatesShaped(q.startDate, q.endDate)
    ensures r.Ok? ==> r.value.startDate == q.startDate.text && r.value.endDate == q.endDate.text
    ensures r.Ok? ==> (r.value.detailed <==> q.detailed == Given("true"))
  {
    match CheckDates(q.startDate, q.endDate)
    case Err(e) => Err(e)
    case Ok(_) => Ok(FeedCall(q.startDate.text, q.endDate.text, q.detailed == Given("true")))
  }

  /** The feed route accepts any span and any order: whenever both dates are
      present and well shaped, the request goes through. */
  lemma FeedIgnoresSpanAndOrder(start: string, end: string, detailed: Param)
    requires start != "" && end != ""
    requires HasDateShape(start) && HasDateShape(end)
    ensures ValidateFeedQuery(FeedQuery(Given(start), Given(end), detailed)).Ok?
  {
  }

  /** Query of `GET /api/neo/browse`. */
  datatype BrowseQuery = BrowseQuery(page: NumParam, size: NumParam)

  /** `isNaN(n) || n < 0`. */
  predicate BadBrowsePage(n: JsInt)
  {
    n.NaN? || n.value < 0
  }

  /** `GET /api/neo/browse`: page defaults to 0 and must be at least 0; size
      defaults to 20 and must lie in [1, 100]. */
  function ValidateBrowseQuery(q: BrowseQuery): (r: Result<(int, int), NeoError>)
    ensures r == Err(InvalidBrowsePage) <==> BadBrowsePage(ParamValue(q.page, 0))
    ensures r == Err(InvalidSize) <==> !BadBrowsePage(ParamValue(q.page, 0)) && BadSize(ParamValue(q.size, 20))
    ensures r.Ok? <==> !BadBrowsePage(ParamValue(q.page, 0)) && !BadSize(ParamValue(q.size, 20))
    ensures r.Ok? ==> r.value.0 >= 0 && MinPageSize <= r.value.1 <= MaxPageSize
    ensures r.Ok? ==> Int(r.value.0) == ParamValue(q.page, 0) && Int(r.value.1) == ParamValue(q.size, 20)
  {
    var page, size := ParamValue(q.page, 0), ParamValue(q.size, 20);
    if BadBrowsePage(page) then Err(InvalidBrowsePage)
    else if BadSize(size) then Err(InvalidSize)
    else Ok((page.value, size.value))
  }

  /** Page 0 is a valid browse page but not a valid `GET /api/neo` page. */
  lemma PageZeroOnlyForBrowse()
    ensures ValidateBrowseQuery(BrowseQuery(Parsed(Int(0)), Omitted)) == Ok((0, 20))
    ensures ValidateNeoQuery(NeoQuery(Given("2024-01-01"), Given("2024-01-02"), Parsed(Int(0)), Omitted))
      == Err(InvalidPage)
  {
    assert ParseIsoDate("2024-01-01") == Some(CivilDay(2024, 1, 1));
    assert ParseIsoDate("2024-01-02") == Some(CivilDay(2024, 1, 2));
  }

  /** Any page and size `GET /api/neo` accepts are accepted by the browse
      route too, which is looser only in also admitting page 0. */
  lemma BrowseAcceptsNeoPaging(q: NeoQuery)
    requires ValidateNeoQuery(q).Ok?
    ensures ValidateBrowseQuery(BrowseQuery(q.page, q.size)).Ok?
    ensures var r := ValidateBrowseQuery(BrowseQuery(q.page, q.size)).value;
      r.1 == ValidateNeoQuery(q).value.size
      && (q.page.Parsed? ==> r.0 == ValidateNeoQuery(q).value.page)
  {
  }

  /** `GET /api/neo/lookup/:asteroid_id`: the id must be non-empty. */
  function ValidateLookup(asteroidId: Param): (r: Result<string, NeoError>)
    ensures r.Err? <==> !Truthy(asteroidId)
    ensures r.Err? ==> r.error == MissingAsteroidId
    ensures r.Ok? ==> r.value == asteroidId.text && r.value != ""
  {
    if !Truthy(asteroidId) then Err(MissingAsteroidId) else Ok(asteroidId.text)
  }
}
