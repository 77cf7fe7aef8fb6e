/** Astronomy Picture of the Day records: the response transform, random
    pick, search and statistics (backend/services/apodService.js). */
module ApodService {
  import opened Outcomes
  import opened Seqs
  import opened Text
  import opened Query
  import opened Dates

  /** A record as the upstream APOD service returns it. */
  datatype RawApod = RawApod(
    date: string,
    title: string,
    explanation: string,
    url: string,
    hdurl: Param,
    mediaType: string,
    serviceVersion: string,
    copyright: Param)

  /** A record after `transformAPODData`. `year` is `new Date(date).getFullYear()`
      read in UTC; `None` stands for the `NaN` of an unreadable date. */
  datatype Apod = Apod(
    date: string,
    title: string,
    explanation: string,
    url: string,
    hdurl: Param,
    mediaType: string,
    serviceVersion: string,
    copyright: Param,
    isVideo: bool,
    isImage: bool,
    year: Option<int>)

  /** The calendar year of an ISO date string, `None` for an Invalid Date. */
  function YearOf(date: string): (y: Option<int>)
    ensures y.Some? ==> HasDateShape(date) && y.value == YearField(date) && ParseIsoDate(date).Some?
    ensures HasDateShape(date) && ParseIsoDate(date).Some? ==> y == Some(YearField(date))
  {
    if HasDateShape(date) && ParseIsoDate(date).Some? then Some(YearField(date)) else None
  }

  /** `transformAPODData`: copies the upstream fields and adds the media flags. */
  function TransformApod(raw: RawApod): (a: Apod)
    ensures a.isVideo <==> raw.mediaType == "video"
    ensures a.isImage <==> raw.mediaType == "image"
    ensures !(a.isVideo && a.isImage)
    ensures a.date == raw.date && a.title == raw.title && a.explanation == raw.explanation
    ensures a.url == raw.url && a.hdurl == raw.hdurl && a.mediaType == raw.mediaType
    ensures a.serviceVersion == raw.serviceVersion && a.copyright == raw.copyright
    ensures a.year == YearOf(raw.date)
  {
    Apod(raw.date, raw.title, raw.explanation, raw.url, raw.hdurl, raw.mediaType,
         raw.serviceVersion, raw.copyright,
         raw.mediaType == "video", raw.mediaType == "image", YearOf(raw.date))
  }

  /** `getAPODRange`'s transform of the upstream array, element by element. */
  function TransformRange(raws: seq<RawApod>): (r: seq<Apod>)
    ensures |r| == |raws|
    ensures forall i :: 0 <= i < |r| ==> r[i] == TransformApod(raws[i])
  {
    seq(|raws|, i requires 0 <= i < |raws| => TransformApod(raws[i]))
  }

  const NoApodMessage: string := "No APOD data found for the specified date range"

  /** `Math.floor(roll * n)` for `roll` drawn from `Math.random()`, i.e. in [0, 1). */
  function RandomIndex(n: nat, roll: real): (i: nat)
    requires n > 0 && 0.0 <= roll < 1.0
    ensures i < n
  {
    var x := roll * n as real;
    assert 0.0 <= x < n as real by {
      assert roll * n as real < 1.0 * n as real;
    }
    x.Floor
  }

  /** `getRandomAPOD`: an error for an empty range, otherwise the element at
      a uniformly drawn index. */
  function PickRandom(apods: seq<Apod>, roll: real): (r: Result<Apod, string>)
    requires 0.0 <= roll < 1.0
    ensures r.Err? <==> |apods| == 0
    ensures r.Err? ==> r.error == NoApodMessage
    ensures r.Ok? ==> r.value in apods
  {
    if |apods| == 0 then Err(NoApodMessage)
    else Ok(apods[RandomIndex(|apods|, roll)])
  }

  /** Title or explanation includes the lower-cased query. */
  predicate MatchesQuery(a: Apod, query: string)
  {
    Includes(Lower(a.title), Lower(query)) || Includes(Lower(a.explanation), Lower(query))
  }

  /** `searchAPOD`: the records whose title or explanation, lower-cased,
      includes the lower-cased query, in their original order. */
  function SearchApod(apods: seq<Apod>, query: string): (r: seq<Apod>)
    ensures IsSubsequence(r, apods)
    ensures forall i :: 0 <= i < |r| ==> MatchesQuery(r[i], query)
    ensures forall i :: 0 <= i < |apods| && MatchesQuery(apods[i], query) ==> apods[i] in r
    ensures multiset(r) <= multiset(apods)
    ensures forall i :: 0 <= i < |apods| && MatchesQuery(apods[i], query) ==>
      multiset(r)[apods[i]] == multiset(apods)[apods[i]]
  {
    Filter(apods, (a: Apod) => MatchesQuery(a, query))
  }

  /** The result of `getAPODStats`. `years` holds the distinct known years in
      ascending order; `nanYear` says whether a trailing `NaN` entry follows
      them (an unreadable date). */
  datatype ApodStats = ApodStats(
    total: nat,
    imageCount: nat,
    videoCount: nat,
    years: seq<int>,
    nanYear: bool,
    copyrightHolders: seq<string>,
    startDate: string,
    endDate: string)

  predicate IsImage(a: Apod) { a.isImage }
  predicate IsVideo(a: Apod) { a.isVideo }
  predicate HasCopyright(a: Apod) { Truthy(a.copyright) }

  /** The media type tests on the upstream records. */
  predicate RawIsImage(r: RawApod) { r.mediaType == "image" }
  predicate RawIsVideo(r: RawApod) { r.mediaType == "video" }

  /** Counting transformed records by `p` counts upstream records by any `q`
      that agrees with `p` through the transform. */
  lemma {:induction false} FilterTransformLength(raws: seq<RawApod>, p: Apod -> bool, q: RawApod -> bool)
    requires forall r :: p(TransformApod(r)) == q(r)
    ensures |Filter(TransformRange(raws), p)| == |Filter(raws, q)|
  {
    if |raws| > 0 {
      var apods := TransformRange(raws);
      assert apods[1..] == TransformRange(raws[1..]);
      FilterLengthStep(apods, p);
      FilterLengthStep(raws, q);
      FilterTransformLength(raws[1..], p, q);
    }
  }

  /** The known years of a list, in list order. */
  function KnownYears(apods: seq<Apod>): (ys: seq<int>)
    ensures forall y :: y in ys <==> exists i :: 0 <= i < |apods| && apods[i].year == Some(y)
  {
    if |apods| == 0 then []
    else
      var rest := KnownYears(apods[1..]);
      assert forall i :: 1 <= i < |apods| ==> apods[i] == apods[1..][i - 1];
      if apods[0].year.Some? then [apods[0].year.value] + rest else rest
  }

  /** The copyright texts of the records that have a non-empty one, in list order. */
  function Copyrights(apods: seq<Apod>): (cs: seq<string>)
    ensures forall c :: c in cs <==> exists i :: 0 <= i < |apods| && Truthy(apods[i].copyright) && apods[i].copyright.text == c
  {
    if |apods| == 0 then []
    else
      var rest := Copyrights(apods[1..]);
      assert forall i :: 1 <= i < |apods| ==> apods[i] == apods[1..][i - 1];
      if Truthy(apods[0].copyright) then [apods[0].copyright.text] + rest else rest
  }

  /** Some record's date could not be read, so its year is `NaN`. */
  predicate SomeYearUnknown(apods: seq<Apod>)
  {
    exists i :: 0 <= i < |apods| && apods[i].year.None?
  }

  /** `getAPODStats` over the upstream records of a range (transformed first,
      as `getAPODRange` does). */
  function ApodStatsOf(raws: seq<RawApod>, startDate: string, endDate: string): (st: ApodStats)
    ensures st.total == |raws|
    ensures st.imageCount == |Filter(raws, RawIsImage)| && st.videoCount == |Filter(raws, RawIsVideo)|
    ensures st.imageCount + st.videoCount <= st.total
    ensures StrictlyIncreasing(st.years)
    ensures forall y :: y in st.years <==> exists i :: 0 <= i < |raws| && YearOf(raws[i].date) == Some(y)
    ensures st.nanYear <==> exists i :: 0 <= i < |raws| && YearOf(raws[i].date).None?
    ensures NoDuplicates(st.copyrightHolders)
    ensures FirstOccurrenceOrder(st.copyrightHolders, Copyrights(TransformRange(raws)))
    ensures st.startDate == startDate && st.endDate == endDate
    ensures forall c :: c in st.copyrightHolders <==>
      exists i :: 0 <= i < |raws| && Truthy(raws[i].copyright) && raws[i].copyright.text == c
  {
    var apods := TransformRange(raws);
    FilterDisjointFlags(raws);
    FilterTransformLength(raws, IsImage, RawIsImage);
    FilterTransformLength(raws, IsVideo, RawIsVideo);
    var years := KnownYears(apods);
    var holders := Copyrights(apods);
    assert forall i :: 0 <= i < |raws| ==> apods[i].year == YearOf(raws[i].date);
    CopyrightsOfRange(raws);
    ApodStats(
      |apods|,
      |Filter(apods, IsImage)|,
      |Filter(apods, IsVideo)|,
      SortedDistinct(years),
      SomeYearUnknown(apods),
      Distinct(holders),
      startDate,
      endDate)
  }

  /** The distinct copyright holders of a range are exactly the non-empty
      copyrights of its upstream records. */
  lemma CopyrightsOfRange(raws: seq<RawApod>)
    ensures forall c :: c in Distinct(Copyrights(TransformRange(raws))) <==>
      exists i :: 0 <= i < |raws| && Truthy(raws[i].copyright) && raws[i].copyright.text == c
  {
    var apods := TransformRange(raws);
    var holders := Copyrights(apods);
    DistinctSameElements(holders);
    assert forall i :: 0 <= i < |raws| ==> apods[i].copyright == raws[i].copyright;
  }

  /** No transformed record is both an image and a video, so the two counts
      fit in the total. */
  lemma FilterDisjointFlags(raws: seq<RawApod>)
    ensures var apods := TransformRange(raws);
      |Filter(apods, IsImage)| + |Filter(apods, IsVideo)| <= |apods|
  {
    var apods := TransformRange(raws);
    forall i | 0 <= i < |apods| ensures !(IsImage(apods[i]) && IsVideo(apods[i])) {
      assert apods[i] == TransformApod(raws[i]);
    }
    FilterDisjointWhere(apods, IsImage, IsVideo);
  }
}
