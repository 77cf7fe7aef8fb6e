/** Validation in the `/api/apod` handlers (backend/routes/apod.js). */
module ApodRoutes {
  import opened Outcomes
  import opened Text
  import opened Dates

  /** The 400 responses of the APOD routes. */
  datatype ApodError = InvalidDateFormat | DateOutOfRange | InvalidDateRange

  /** The `error` field of the response body. */
  function ErrorTitle(e: ApodError): string
  {
    match e
    case InvalidDateFormat => "Invalid date format"
    case DateOutOfRange => "Date out of range"
    case InvalidDateRange => "Invalid date range"
  }

  /** The three APOD routes with their path parameters. */
  datatype ApodRoute =
    | TodayRoute
    | DateRoute(date: string)
    | RangeRoute(startDate: string, endDate: string)

  /** The service call a request that passes validation makes. */
  datatype ApodCall = GetToday | GetByDate(date: string) | GetRange(startDate: string, endDate: string)

  /** `requestedDate < minDate || requestedDate > today`; false for an Invalid Date. */
  predicate OutOfApodRange(day: Option<int>, today: int)
  {
    day.Some? && (day.value < ApodFirstDay || day.value > today)
  }

  /** Validation of one APOD request; `today` is the current UTC day number. */
  function ValidateApod(route: ApodRoute, today: int): (r: Result<ApodCall, ApodError>)
    ensures route.TodayRoute? ==> r == Ok(GetToday)
    ensures route.DateRoute? ==>
      && (r == Err(InvalidDateFormat) <==> !HasDateShape(route.date))
      && (r == Err(DateOutOfRange) <==> HasDateShape(route.date) && OutOfApodRange(ParseIsoDate(route.date), today))
      && (r.Ok? <==> HasDateShape(route.date) && !OutOfApodRange(ParseIsoDate(route.date), today))
      && (r.Ok? ==> r.value == GetByDate(route.date))
    ensures route.RangeRoute? ==>
      && (r == Err(InvalidDateFormat) <==> !HasDateShape(route.startDate) || !HasDateShape(route.endDate))
      && (r == Err(InvalidDateRange) <==>
           HasDateShape(route.startDate) && HasDateShape(route.endDate)
           && StartAfterEnd(ParseIsoDate(route.startDate), ParseIsoDate(route.endDate)))
      && (r.Ok? <==>
           HasDateShape(route.startDate) && HasDateShape(route.endDate)
           && !StartAfterEnd(ParseIsoDate(route.startDate), ParseIsoDate(route.endDate)))
      && (r.Ok? ==> r.value == GetRange(route.startDate, route.endDate))
  {
    match route
    case TodayRoute => Ok(GetToday)
    case DateRoute(date) =>
      if !HasDateShape(date) then Err(InvalidDateFormat)
      else if OutOfApodRange(ParseIsoDate(date), today) then Err(DateOutOfRange)
      else Ok(GetByDate(date))
    case RangeRoute(start, end) =>
      if !HasDateShape(start) || !HasDateShape(end) then Err(InvalidDateFormat)
      else if StartAfterEnd(ParseIsoDate(start), ParseIsoDate(end)) then Err(InvalidDateRange)
      else Ok(GetRange(start, end))
  }

  /** The range route has no 1995 lower bound and no length limit: a range
      from 1990 to 2090 passes, while 1990 on its own is out of range. */
  lemma RangeRouteHasNoBounds(today: int)
    ensures ValidateApod(RangeRoute("1990-01-01", "2090-01-01"), today) == Ok(GetRange("1990-01-01", "2090-01-01"))
    ensures ValidateApod(DateRoute("1990-01-01"), today) == Err(DateOutOfRange)
  {
    assert ParseIsoDate("1990-01-01") == Some(CivilDay(1990, 1, 1));
    assert ParseIsoDate("2090-01-01") == Some(CivilDay(2090, 1, 1));
    CalendarOrder(1990, 1, 1, 1995, 6, 16);
  }

  /** The first APOD day is accepted by the date route. */
  lemma DateRouteBoundsInclusive(today: int)
    requires today >= ApodFirstDay
    ensures ValidateApod(DateRoute("1995-06-16"), today) == Ok(GetByDate("1995-06-16"))
  {
    assert ParseIsoDate("1995-06-16") == Some(ApodFirstDay);
  }

  /** Today is accepted too: the `YYYY-MM-DD` text of today's calendar date
      passes both bounds of the date route. */
  lemma TodayIsAccepted(y: nat, m: nat, d: nat)
    requires y <= 9999 && IsCalendarDate(y, m, d)
    requires CivilDay(y, m, d) >= ApodFirstDay
    ensures ValidateApod(DateRoute(IsoText(y, m, d)), CivilDay(y, m, d)) == Ok(GetByDate(IsoText(y, m, d)))
  {
    IsoRoundTrip(y, m, d);
  }
}
