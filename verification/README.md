# NASA explorer — a Dafny model of its decision logic

The NASA explorer is an Express backend that wraps three NASA APIs, plus a
React frontend:

- the Astronomy Picture of the Day (APOD);
- the Near-Earth Object (NEO) feed;
- the Mars rover photos.

This project models the deterministic part of that system and proves
properties about it:

- the NEO risk and size classifiers, the flattening of the date-keyed feed,
  the statistics, and the name and risk filters;
- the request validators of the `/api/neo`, `/api/apod` and
  `/api/mars-rover` routes, each an ordered chain of checks in which the
  first failure decides the 400 response;
- the Mars rover helpers: the camera-name lookup, the precedence of `sol`
  over `earth_date`, the manifest reshaping and the mission duration;
- the APOD transform flags, the random pick, the search and the statistics;
- the client helpers: `validateDate`, `formatDate`, `getDateRange` and the
  loading counter;
- the page state machines: the APOD history and slideshow, the NEO list
  filter and colours, and the Mars rover selection and pagination rules.

Every handler is a pure function on immutable datatypes. The modules are:

| module | file | models |
|---|---|---|
| `Outcomes` | outcomes.dfy | `Option` and `Result` |
| `Seqs` | seqs.dfy | filter, subsequence, de-duplication, sorted insert |
| `Text` | text.dfy | ASCII lower-casing, `includes`, the `YYYY-MM-DD` shape |
| `Dates` | dates.dfy | proleptic Gregorian day numbers, `new Date('YYYY-MM-DD')` |
| `Query` | query.dfy | query-string values, truthiness, `parseInt` and `parseFloat` outcomes |
| `NeoService` | neo_service.dfy | backend/services/neoService.js |
| `NeoRoutes` | neo_routes.dfy | backend/routes/neo.js |
| `ApodService` | apod_service.dfy | backend/services/apodService.js |
| `ApodRoutes` | apod_routes.dfy | backend/routes/apod.js |
| `MarsRoverService` | mars_rover_service.dfy | backend/services/marsRoverService.js |
| `MarsRoverRoutes` | mars_rover_routes.dfy | backend/routes/marsRover.js |
| `ClientApi` | client_api.dfy | frontend/src/services/api.js |
| `ApodPage` | apod_page.dfy | frontend/src/pages/APOD.jsx |
| `NeoTrackerPage` | neo_tracker_page.dfy | frontend/src/pages/NEOTracker.jsx |
| `MarsRoverPage` | mars_rover_page.dfy | frontend/src/pages/MarsRover.jsx |

## Modelling decisions

- A date is an integer day number, counting days since 0000-01-01 in the
  proleptic Gregorian calendar.
- `new Date('YYYY-MM-DD')` is modelled on the lenient parser of V8:
  - a month outside 1..12 or a day outside 1..31 gives an Invalid Date;
  - a day past the end of its month rolls into the next month, so
    2023-02-30 is 2023-03-02;
  - every comparison with an Invalid Date is false.
- An ISO date parses to UTC midnight. So `date > new Date()` holds exactly
  when the date's day number is greater than today's. "Today" is a
  day-number parameter.
- A query value is either absent or a string. Truthiness is non-emptiness.
  What `parseInt` makes of a value is either `NaN` or an integer, and the
  model takes it as an input.
- A miss distance from `parseFloat` is either `NaN` or a real number. Every
  comparison with `NaN` is false, so a `NaN` distance classifies as 'Very Low'.
- Diameters are reals. They are only ever compared with constants.

### Where the model follows the code rather than the documentation

- The NEO and APOD range routes check only the shape of a date. So
  `2024-13-01` passes validation (`NeoRoutes.ImpossibleMonthPassesValidation`).
  Its Invalid Date makes both the span check and the order check false.
- `sol=0` passes the rover route's presence check, because the text `'0'` is
  truthy. It then parses to the number 0, which is falsy. So when no
  `earth_date` is given, the upstream request carries neither a sol nor an
  earth date
  (`MarsRoverRoutes.SolZeroPassesButIsDropped`).
- The service always reports `total_photos` equal to the number of photos it
  returns. So the Mars page's pagination bar never appears
  (`MarsRoverPage.ServiceListingsNeverPaginate`).
- The page's MINITES camera label lacks the '(Mini-TES)' suffix that the
  server's table carries (`MarsRoverPage.MerCamerasAgreeExceptMinites`).

## Model

| member | source | states |
|---|---|---|
| `NeoService.ClassifyRisk` | backend/services/neoService.js:256-265 | High iff distance < 1,000,000 km and diameter > 1 km; Medium iff not High, distance < 5,000,000 km and diameter > 0.5 km; Low iff neither and distance < 10,000,000 km; Very Low otherwise, including a NaN distance |
| `NeoService.CalculateRiskLevel` | backend/services/neoService.js:247-266 | Unknown exactly when there are no close-approach records; otherwise the classification of the first record's distance and the maximum diameter |
| `NeoService.RiskMonotone` | backend/services/neoService.js:257-265 | a smaller miss distance or a larger diameter never gives a lower risk level |
| `NeoService.RiskUsesFirstApproachOnly` | backend/services/neoService.js:252-254 | two objects with the same first approach and diameter get the same risk, whatever their later approaches |
| `NeoService.SizeCategoryOf` | backend/services/neoService.js:271-281 | Large iff diameter ≥ 1 km, Medium iff in [0.1, 1), Small iff in [0.01, 0.1), Very Small otherwise |
| `NeoService.TransformRecord` | backend/services/neoService.js:149-192 | id, name, diameter, hazard flag and approaches copied; the date is the feed key; risk Unknown iff no approach, else the risk of the first approach; the size is the category of the maximum diameter, Large iff ≥ 1 km and Very Small iff < 0.01 km |
| `NeoService.TransformDay` | backend/services/neoService.js:104-108 | one record per object of the day, in order, each carrying that day's date key |
| `NeoService.FlattenDays` | backend/services/neoService.js:100-120 | the flattened list is as long as the sum of the per-day list lengths, and every record's date is one of the day keys |
| `NeoService.TransformNeoData` | backend/services/neoService.js:100-120 | the records are the flattened days in order; `total_count` equals their number and the sum of the per-day lengths; date range and `element_count` copied from the feed |
| `NeoService.FlattenPosition` | backend/services/neoService.js:104-108 | the k-th object of day d appears in the flat list at the offset of day d plus k, tagged with day d's date |
| `NeoService.SizeLabelWords` | backend/services/neoService.js:273-279 | a size label contains 'Large' iff it is Large, 'Medium' iff Medium, 'Very Small' iff Very Small, and 'Small' iff Small or Very Small |
| `NeoService.NeoStatsOf` | backend/services/neoService.js:286-310 | `total_count` is the number of objects listed under all dates; each other count is the number of flattened objects passing the source's test (hazard flag, exact risk label, size label containing the word); hazardous plus non-hazardous is the total; the date range is the feed's |
| `NeoService.NeoStatsConsistent` | backend/services/neoService.js:290-305 | hazardous plus non-hazardous equals the total; the four risk buckets sum to at most the total; very_small ≤ small; large + medium + small equals the total |
| `NeoService.RiskBucketsCover` | backend/services/neoService.js:294-299 | the four risk buckets plus the Unknown objects add up to the total |
| `NeoService.SizeBucketsCover` | backend/services/neoService.js:300-305 | the large, medium and small buckets add up to the total, because every label contains exactly one of those words |
| `NeoService.SearchByName` | backend/services/neoService.js:319-331 | an order-preserving subsequence holding exactly the objects whose lower-cased name contains the lower-cased query, each as often as in the input |
| `NeoService.ByRiskLevel` | backend/services/neoService.js:336-345 | an order-preserving subsequence holding exactly the objects whose risk label equals the requested one, each as often as in the input |
| `NeoService.SearchEmptyQueryKeepsAll` | backend/services/neoService.js:322-326 | the empty query keeps every object |
| `NeoRoutes.CheckDates` | backend/routes/neo.js:20-36 | missing-dates error iff either date is absent or empty; format error iff both are present and one fails the `YYYY-MM-DD` shape; otherwise both parsed dates |
| `NeoRoutes.ValidateNeoQuery` | backend/routes/neo.js:10-100 | for each 400 response, the exact condition under which it is the first failing check (missing, format, span over 7 days, start after end, page, size), and success otherwise, with the page and size equal to the parsed parameters or the defaults 1 and 20 |
| `NeoRoutes.BrowseAcceptsNeoPaging` | backend/routes/neo.js:60-77 | paging the range route accepts is accepted by the browse route with the same size, and with the same page when one was given |
| `NeoRoutes.SpanAndOrderExclusive` | backend/routes/neo.js:38-57 | a span over seven days and a start after the end never hold together |
| `NeoRoutes.SevenDaysIsTheLimit` | backend/routes/neo.js:38-49 | a seven-day span is accepted and an eight-day span is rejected as too large |
| `NeoRoutes.ImpossibleMonthPassesValidation` | backend/routes/neo.js:29-57 | a date with month 13 has the right shape, and both the span and the order check let its Invalid Date through |
| `NeoRoutes.ValidateFeedQuery` | backend/routes/neo.js:107-154 | only presence and shape are checked; `detailed` is on exactly when the text is 'true' |
| `NeoRoutes.FeedIgnoresSpanAndOrder` | backend/routes/neo.js:115-132 | any two well-shaped dates are accepted by the feed route, whatever their span or order |
| `NeoRoutes.ValidateBrowseQuery` | backend/routes/neo.js:195-241 | page error iff the page is NaN or negative; size error iff the page passes and the size is NaN or outside [1, 100]; success iff neither, with defaults page 0 and size 20 |
| `NeoRoutes.PageZeroOnlyForBrowse` | backend/routes/neo.js:60-69 | page 0 is accepted by the browse route and rejected by the range route |
| `NeoRoutes.ValidateLookup` | backend/routes/neo.js:161-188 | a missing or empty asteroid id is rejected; any other id reaches the service unchanged |
| `ApodService.YearOf` | backend/services/apodService.js:100 | a year is known exactly for a well-shaped date that parses, and then it is the date's year field |
| `ApodService.TransformApod` | backend/services/apodService.js:79-102 | `is_video` iff the media type is 'video', `is_image` iff it is 'image', never both; the year is that of the date; every other field copied unchanged |
| `ApodService.TransformRange` | backend/services/apodService.js:79-102 | one transformed entry per raw entry, position for position |
| `ApodService.RandomIndex` | backend/services/apodService.js:114 | `floor(roll * n)` lies in [0, n) for a roll in [0, 1) |
| `ApodService.PickRandom` | backend/services/apodService.js:107-120 | an error with the 'No APOD data found' message iff the range is empty; otherwise an element of the range |
| `ApodService.SearchApod` | backend/services/apodService.js:125-138 | an order-preserving subsequence holding exactly the entries whose lower-cased title or explanation contains the lower-cased query, each as often as in the input |
| `ApodService.KnownYears` | backend/services/apodService.js:151 | the known years are exactly the years of the entries |
| `ApodService.Copyrights` | backend/services/apodService.js:152 | exactly the truthy copyright values of the entries |
| `ApodService.ApodStatsOf` | backend/services/apodService.js:143-164 | total is the range length; the image and video counts are the numbers of raw entries whose media type is 'image' and 'video', adding up to at most the total; years duplicate-free, ascending and exactly the entries' years; a NaN year marked iff some date does not parse; copyright holders duplicate-free, exactly the present copyrights, in the order each first appears; the requested dates copied |
| `ApodService.CopyrightsOfRange` | backend/services/apodService.js:152 | a holder is listed iff some raw entry carries that non-empty copyright |
| `ApodService.FilterTransformLength` | backend/services/apodService.js:148-150 | counting transformed entries by a flag equals counting raw entries by the field the flag is computed from |
| `ApodService.FilterDisjointFlags` | backend/services/apodService.js:148-150 | the image and video counts add up to at most the total, because no entry is both |
| `ApodRoutes.ValidateApod` | backend/routes/apod.js:10-104 | the default route is never rejected; a date is rejected for its shape, else for lying before 1995-06-16 or after today; a range is rejected for either shape, else for start after end |
| `ApodRoutes.RangeRouteHasNoBounds` | backend/routes/apod.js:81-104 | the range route accepts 1990 to 2090, which the single-date route rejects |
| `ApodPage.PickedDateAcceptedByServer` | frontend/src/pages/APOD.jsx:54-59 | a date the picker's check accepts is accepted by the single-date route, which calls the service with it |
| `ApodPage.ServerAcceptedValidDateIsPickable` | frontend/src/services/api.js:120-130 | a real calendar date the single-date route accepts passes the picker's check |
| `ApodPage.InvalidMonthSplitsTheChecks` | backend/routes/apod.js:48-58 | 2024-13-01 is accepted by the single-date route and rejected by the picker's check |
| `ApodRoutes.DateRouteBoundsInclusive` | backend/routes/apod.js:48-58 | 1995-06-16 itself is accepted |
| `ApodRoutes.TodayIsAccepted` | backend/routes/apod.js:48-58 | the `YYYY-MM-DD` text of today's date is accepted when today is on or after 1995-06-16 |
| `MarsRoverService.CameraFullName` | backend/services/marsRoverService.js:174-205 | a known code gives its table name, an unknown code gives itself |
| `MarsRoverService.CameraFullNameExamples` | backend/services/marsRoverService.js:175-204 | 'NAVCAM' gives 'Navigation Camera'; the lookup is case-sensitive; unknown codes come back unchanged |
| `MarsRoverService.BuildPhotoParams` | backend/services/marsRoverService.js:16-33 | sol is sent iff it is truthy; earth_date iff sol is not and the date is truthy; never both; camera iff it is truthy |
| `MarsRoverService.SolZeroIsDropped` | backend/services/marsRoverService.js:24-28 | sol 0 without a date sends neither sol nor date |
| `MarsRoverService.ListPhotos` | backend/services/marsRoverService.js:40-45 | `total_photos` equals the number of photos returned |
| `MarsRoverService.CameraEntryOf` | backend/services/marsRoverService.js:158-164 | the entry names the sol's first camera and that camera's full name, or nothing when the sol lists no camera; sol, date and count copied |
| `MarsRoverService.TransformManifest` | backend/services/marsRoverService.js:149-169 | one camera entry per manifest sol, in order; the duration is that of landing date to max date; name, status, max sol, photo total, landing, launch and max dates copied |
| `MarsRoverService.MissionDuration` | backend/services/marsRoverService.js:210-216 | NaN iff either date is invalid; otherwise the non-negative distance in days, zero iff the dates are equal |
| `MarsRoverService.MissionDurationSymmetric` | backend/services/marsRoverService.js:213 | swapping the dates does not change the duration |
| `MarsRoverService.MatchingCameras` | backend/services/marsRoverService.js:262-268 | fails iff the callback throws on some entry: its name is undefined, or its name does not match and its full name is undefined; otherwise exactly the entries whose lower-cased name, or else full name, contains the lower-cased query, in order, each as often as in the input |
| `MarsRoverService.ManifestSearchFailsOnlyWithoutCamera` | backend/services/marsRoverService.js:158-159 | on the cameras of a transformed manifest the search fails iff some sol lists no camera |
| `MarsRoverRoutes.CheckRover` | backend/routes/marsRover.js:21-28 | the rover is accepted iff its lower-cased name is one of the four rovers, and comes back lower-cased |
| `MarsRoverRoutes.ValidatePhotosQuery` | backend/routes/marsRover.js:10-55 | rover error iff unknown rover; missing-date error iff known rover and neither sol nor date truthy; page error iff both pass and the page is NaN or < 1; otherwise rover and camera lower-cased, sol parsed only when truthy |
| `MarsRoverRoutes.DefaultsApply` | backend/routes/marsRover.js:12-18 | with no parameters the rover defaults to curiosity and the page to 1 |
| `MarsRoverRoutes.SolZeroPassesButIsDropped` | backend/routes/marsRover.js:31-51 | `sol=0` passes validation, yet the upstream request carries neither sol nor date |
| `MarsRoverRoutes.ValidateRoverRoute` | backend/routes/marsRover.js:79-160 | the manifests, cameras and latest routes accept exactly the known rovers |
| `MarsRoverRoutes.SameRoverCheckEverywhere` | backend/routes/marsRover.js:21-28 | the rover-only routes and the photos route reject exactly the same rover values |
| `MarsRoverRoutes.RoverCaseInsensitive` | backend/routes/marsRover.js:22 | 'Perseverance' is accepted as 'perseverance'; 'ingenuity' is rejected |
| `ClientApi.ValidateDate` | frontend/src/services/api.js:120-130 | false for any text without the `YYYY-MM-DD` shape; otherwise true iff the date parses and lies in [1995-06-16, today] |
| `ClientApi.FormatDate` | frontend/src/services/api.js:98-107 | blank iff the input is falsy; a RangeError iff it is an Invalid Date; otherwise the day, clamped to today |
| `ClientApi.FormatDateIdempotent` | frontend/src/services/api.js:98-107 | a past day is kept unchanged, and formatting a formatted day changes nothing |
| `ClientApi.GetDateRange` | frontend/src/services/api.js:132-150 | the end is today and the start is `days` days earlier, never after the end; a negative count gives a start of today |
| `ClientApi.StartLoading` | frontend/src/services/api.js:180-183 | adds exactly one to the counter, after which the state is loading |
| `ClientApi.StopLoading` | frontend/src/services/api.js:184-187 | stop at zero stays at zero; otherwise it removes exactly one |
| `ClientApi.IsLoading` | frontend/src/services/api.js:188 | loading iff the counter is away from its initial zero |
| `ClientApi.StartStopRestores` | frontend/src/services/api.js:180-188 | start followed by stop restores the counter, and after start the state is loading |
| `ClientApi.LoadingCounterBounds` | frontend/src/services/api.js:175-190 | over any sequence of calls the counter never exceeds the starts made and never drops below starts minus stops |
| `ClientApi.RunLoadingAppend` | frontend/src/services/api.js:176-190 | running two call sequences in turn equals running their concatenation |
| `ClientApi.StartsAdd` | frontend/src/services/api.js:180-183 | n starts raise the counter by exactly n |
| `ClientApi.StopsDrain` | frontend/src/services/api.js:184-187 | at least as many stops as requests in flight bring the state back to not loading |
| `ClientApi.BalancedCallsDrain` | frontend/src/services/api.js:176-190 | from idle, n > 0 starts leave the state loading, and as many stops afterwards leave it idle |
| `ApodPage.AddToHistory` | frontend/src/pages/APOD.jsx:35-38 | unchanged when some entry has the item's date; otherwise the item first, followed by at most nine older entries |
| `ApodPage.AddKeepsDatesDistinct` | frontend/src/pages/APOD.jsx:35-38 | inserting keeps the history's dates distinct and puts the item's date in it |
| `ApodPage.Loaded` | frontend/src/pages/APOD.jsx:33-38 | the fetched picture is shown and its date is in the history; the history is unchanged when it already held that date, otherwise the picture comes first; index and play flag unchanged |
| `ApodPage.JsRem` | frontend/src/pages/APOD.jsx:107 | JavaScript `%`: the remainder of the quotient rounded toward zero, so it has the dividend's sign; Euclidean on a non-negative dividend, in (-n, 0] on a negative one |
| `ApodPage.Next` | frontend/src/pages/APOD.jsx:105-112 | a no-op on an empty history; otherwise the next index, wrapping from the last entry to 0, showing that entry |
| `ApodPage.Previous` | frontend/src/pages/APOD.jsx:96-103 | a no-op on an empty history; from 0 to the last entry, otherwise one back, showing that entry |
| `ApodPage.PreviousNextInverse` | frontend/src/pages/APOD.jsx:96-112 | Previous then Next, and Next then Previous, return to the same index |
| `ApodPage.ToggleSlideshow` | frontend/src/pages/APOD.jsx:74-78 | flips the play flag, except on an empty history |
| `ApodPage.Tick` | frontend/src/pages/APOD.jsx:81-93 | while playing on a non-empty history a tick is Next; otherwise nothing changes |
| `ApodPage.RunKeepsGood` | frontend/src/pages/APOD.jsx:35-112 | along any sequence of loads, clicks and ticks the history holds at most ten entries with distinct dates, and the index names an entry |
| `NeoTrackerPage.KeepNeo` | frontend/src/pages/NEOTracker.jsx:62-63 | a kept object's lower-cased name contains the lower-cased term; with 'all' that is the whole test; an empty term with 'all' keeps everything; 'high', 'medium' and 'low' keep an object iff its name matches and its risk is exactly that one |
| `NeoTrackerPage.FilteredNeos` | frontend/src/pages/NEOTracker.jsx:61-65 | an order-preserving subsequence holding exactly the objects whose name contains the term and whose risk matches the filter, case-insensitively, each as often as in the input |
| `NeoTrackerPage.NoFilterKeepsAll` | frontend/src/pages/NEOTracker.jsx:62-63 | an empty term with filter 'all' keeps every object |
| `NeoTrackerPage.RiskFilterExact` | frontend/src/pages/NEOTracker.jsx:63 | the 'high', 'medium' and 'low' filters keep only objects of exactly that risk, dropping Very Low and Unknown, and keep every object of that risk whose name matches |
| `NeoTrackerPage.RiskColor` | frontend/src/pages/NEOTracker.jsx:67-74 | red, yellow and green classes exactly for a lower-cased 'high', 'medium' and 'low'; slate for everything else |
| `NeoTrackerPage.RiskColorsOfLabels` | frontend/src/pages/NEOTracker.jsx:67-74 | the High, Medium and Low labels get their colours; Very Low and Unknown get slate |
| `NeoTrackerPage.SizeColor` | frontend/src/pages/NEOTracker.jsx:76-81 | the label is searched for 'Large', then 'Medium', then 'Small'; the first word found decides the colour, slate if none |
| `NeoTrackerPage.SizeColorsOfLabels` | frontend/src/pages/NEOTracker.jsx:76-81 | Very Small objects share the green of Small ones |
| `NeoTrackerPage.ChangeDateRange` | frontend/src/pages/NEOTracker.jsx:57-59 | the edited end takes the new value, and the other end is unchanged |
| `NeoTrackerPage.InitialRangeIsLastWeek` | frontend/src/pages/NEOTracker.jsx:19 | the page opens on the seven days ending today |
| `MarsRoverPage.InitialState` | frontend/src/pages/MarsRover.jsx:18-24 | the 'curiosity' rover, today's date, no camera, page 1, nothing loaded |
| `MarsRoverPage.ChangeRover` | frontend/src/pages/MarsRover.jsx:112-116 | the rover changes, the camera is cleared, the page goes to 1, the date is kept |
| `MarsRoverPage.ChangeDate` | frontend/src/pages/MarsRover.jsx:118-121 | the date changes, the page goes to 1, rover and camera are kept |
| `MarsRoverPage.ChangeCamera` | frontend/src/pages/MarsRover.jsx:123-126 | the camera changes, the page goes to 1, rover and date are kept |
| `MarsRoverPage.RequestParams` | frontend/src/pages/MarsRover.jsx:80-88 | rover, earth date and page are always sent; the camera only when one is selected |
| `MarsRoverPage.RequestsPassValidation` | frontend/src/pages/MarsRover.jsx:80-88 | the page's request passes the server's checks for any offered rover, non-empty date and page ≥ 1, and reaches the service as an earth-date query |
| `MarsRoverPage.EmptyDateIsRejected` | frontend/src/pages/MarsRover.jsx:80-88 | a cleared date field makes the server answer with the missing-date error |
| `MarsRoverPage.PreviousEnabled` | frontend/src/pages/MarsRover.jsx:311 | on a positive page, enabled iff going back lands on a page ≥ 1 |
| `MarsRoverPage.NextEnabled` | frontend/src/pages/MarsRover.jsx:324 | enabled iff a full page of 25 photos is shown, so never on an empty grid |
| `MarsRoverPage.ClickPrevious` | frontend/src/pages/MarsRover.jsx:227-311 | the page goes back one only when the bar is shown (some photos shown and the total exceeds them) and the page is not 1 |
| `MarsRoverPage.EmptyGridIgnoresClicks` | frontend/src/pages/MarsRover.jsx:227-324 | with no photo shown neither Previous nor Next changes the state, whatever the reported total |
| `MarsRoverPage.ClickNext` | frontend/src/pages/MarsRover.jsx:322-324 | the page goes forward one only when the bar is shown and a full page of 25 photos is shown |
| `MarsRoverPage.Loaded` | frontend/src/pages/MarsRover.jsx:91-94 | the shown count and total come from the response; the selection is unchanged |
| `MarsRoverPage.RunKeepsPagePositive` | frontend/src/pages/MarsRover.jsx:112-131 | along any sequence of events the page stays at 1 or above |
| `MarsRoverPage.ServiceListingsNeverPaginate` | frontend/src/pages/MarsRover.jsx:307 | when every response reports its own length as total, the bar never shows and the page stays 1 |
| `MarsRoverPage.MerCamerasAgreeExceptMinites` | frontend/src/pages/MarsRover.jsx:41-54 | the Opportunity and Spirit camera labels match the server's names except MINITES |
| `MarsRoverPage.CameraChoices` | frontend/src/pages/MarsRover.jsx:33-75 | a non-empty camera list exactly for the four known rovers; every offered camera, MINITES excepted, carries the server's full name |
| `MarsRoverPage.CameraChoicesAgreeWithServer` | frontend/src/pages/MarsRover.jsx:33-75 | every camera offered for any rover, MINITES excepted, carries the server's full name |
| `Dates.CalendarOrder` | backend/routes/neo.js:38-57 | day numbers of valid calendar dates are ordered like the dates themselves |
| `Dates.ParseIsoDate` | backend/routes/apod.js:48 | a well-shaped date parses iff month is 1..12 and day is 1..31, to the day number of its fields |
| `Dates.IsoRoundTrip` | frontend/src/services/api.js:103-106 | printing a calendar date as `YYYY-MM-DD` and parsing it back gives the same day |
| `Dates.DayOverflowRollsOver` | backend/routes/neo.js:39-40 | 2023-02-30 parses as 2023-03-02; month 13 and day 32 are Invalid Dates |
| `Seqs.Filter` | backend/services/neoService.js:292-304 | an order-preserving subsequence holding exactly the elements that satisfy the predicate, each kept element as often as in the input |
| `Seqs.FilterLengthStep` | backend/services/neoService.js:292-304 | the filtered length grows by one exactly when the head satisfies the predicate |
| `Seqs.FilterComplement` | backend/services/neoService.js:292-293 | filtering by a predicate and by its negation splits the input: the lengths add up to its length |
| `Seqs.SortedDistinct` | backend/services/apodService.js:151 | strictly ascending, with exactly the input's values |
| `Seqs.Distinct` | backend/services/apodService.js:152 | duplicate-free, with exactly the input's values, ordered by each value's first index in the input |
| `Seqs.DistinctAfterOrder` | backend/services/apodService.js:152 | the values added after a seen set keep the order of their first occurrences |
| `Text.Lower` | backend/services/neoService.js:322 | same length, each letter lower-cased, no upper-case letter left |
| `Text.LowerIdempotent` | frontend/src/pages/NEOTracker.jsx:62 | lower-casing twice equals lower-casing once |

## Left out

- HTTP, axios, Express routing and middleware, and backend/server.js are not modelled. They are I/O and library behaviour; the model starts from already-decoded query values and upstream JSON.
- JSX rendering, animation, toasts, `window.scrollTo` and the presentational files (Home.jsx, About.jsx, Footer.jsx, Navbar.jsx, LoadingSpinner.jsx, App.jsx) are not modelled. They contain no decision logic.
- `getAPOD`, `getAPODByDate`, `getAPODRange`, `getNEOData`, `getNEOFeed`, `getAsteroidDetails`, `browseNEOs`, `getRoverManifest`, `getRoverCameras`, `getLatestPhotos`, `getPhotosByCamera` and `getRoverStats` are not modelled beyond their transforms. They are upstream calls; the routes are modelled up to the service call they make.
- `transformAsteroidData`, `transformBrowseRecord` and `transformPhotoData` are not modelled. They copy fields from upstream JSON and reuse the classifiers that are modelled.
- `formatted_date`, the `year` field of `transformNEORecord` (`new Date(date).getFullYear()`, which depends on the local time zone), `toLocaleDateString`, `toISOString` text and time zones are not modelled. Dates are UTC day numbers and "today" is a parameter.
- Date strings in formats other than `YYYY-MM-DD` are not modelled. Every route checks that shape before it parses a date, and `formatDate` is only given dates.
- `Math.random` is not modelled. It becomes a roll parameter in [0, 1); the random-date button of the APOD page is left out with it.
- `average_photos_per_sol` is not modelled. It is a floating-point `Math.round`/`toFixed` figure with no stated contract.
- `MarsRoverPage.PaginationShown` leaves out the `loading` flag of the photo grid's guard. The bar is only hidden while a request is in flight, and requests are not modelled as separate steps.
- React's asynchronous state batching and stale closures are not modelled. Each handler is a pure state transition.
- `Text.Lower` lower-cases ASCII letters only; JavaScript's `toLowerCase` also folds non-ASCII letters.
- `MarsRoverService.CameraFullName` does not model lookups of `Object.prototype` keys such as 'toString', which the JavaScript object literal would also answer.
- `ApodService.ApodStatsOf` sorts years numerically. JavaScript's default `sort` compares them as strings, which agrees for the four-digit years of APOD dates but not in general.
- `NeoService.CalculateRiskLevel` does not model the TypeError thrown when an object lacks `close_approach_data` while `transformNEORecord` reads it.
- `NeoService.FlattenDays` flattens the feed in the given key order; the key order of `Object.keys` is not modelled.
- A query parameter given twice, which Express passes on as an array, is not modelled.
