/** Near-Earth-Object records: risk and size classification, flattening of
    the date-keyed feed, statistics, and the name and risk filters
    (backend/services/neoService.js). */
module NeoService {
  import opened Seqs
  import opened Text
  import opened Query

  /** One close-approach record. Only the miss distance in kilometres takes
      part in the logic; it is a string upstream and goes through `parseFloat`. */
  datatype Approach = Approach(date: string, missDistanceKm: Num, orbitingBody: string)

  /** An object as the upstream feed delivers it. `maxDiameterKm` is
      `estimated_diameter.kilometers.estimated_diameter_max`. */
  datatype RawNeo = RawNeo(
    id: string,
    name: string,
    maxDiameterKm: real,
    hazardous: bool,
    approaches: seq<Approach>)

  /** The risk labels the service attaches. */
  datatype Risk = High | Medium | Low | VeryLow | Unknown

  function RiskLabel(r: Risk): string
  {
    match r
    case High => "High"
    case Medium => "Medium"
    case Low => "Low"
    case VeryLow => "Very Low"
    case Unknown => "Unknown"
  }

  /** The size categories the service attaches. */
  datatype SizeCategory = LargeSize | MediumSize | SmallSize | VerySmallSize

  function SizeLabel(c: SizeCategory): string
  {
    match c
    case LargeSize => "Large (>1km)"
    case MediumSize => "Medium (100m-1km)"
    case SmallSize => "Small (10m-100m)"
    case VerySmallSize => "Very Small (<10m)"
  }

  const HighRiskDistanceKm: real := 1000000.0
  const MediumRiskDistanceKm: real := 5000000.0
  const LowRiskDistanceKm: real := 10000000.0
  const HighRiskDiameterKm: real := 1.0
  const MediumRiskDiameterKm: real := 0.5

  /** Risk from the first approach's miss distance and the maximum diameter.
      A `NaN` distance fails every `<` test and so lands in `Very Low`. */
  function ClassifyRisk(missKm: Num, diameterKm: real): (r: Risk)
    ensures r != Unknown
    ensures r == High <==> LessThan(missKm, HighRiskDistanceKm) && diameterKm > HighRiskDiameterKm
    ensures r == Medium <==>
      !(LessThan(missKm, HighRiskDistanceKm) && diameterKm > HighRiskDiameterKm)
      && LessThan(missKm, MediumRiskDistanceKm) && diameterKm > MediumRiskDiameterKm
    ensures r == VeryLow <==> !LessThan(missKm, LowRiskDistanceKm)
    ensures missKm.NotANumber? ==> r == VeryLow
  {
    if LessThan(missKm, HighRiskDistanceKm) && diameterKm > HighRiskDiameterKm then High
    else if LessThan(missKm, MediumRiskDistanceKm) && diameterKm > MediumRiskDiameterKm then Medium
    else if LessThan(missKm, LowRiskDistanceKm) then Low
    else VeryLow
  }

  /** `calculateRiskLevel`: `Unknown` without close-approach data, otherwise
      the classification of the FIRST approach only. */
  function CalculateRiskLevel(neo: RawNeo): (r: Risk)
    ensures r == Unknown <==> |neo.approaches| == 0
    ensures |neo.approaches| > 0 ==> r == ClassifyRisk(neo.approaches[0].missDistanceKm, neo.maxDiameterKm)
  {
    if |neo.approaches| == 0 then Unknown
    else ClassifyRisk(neo.approaches[0].missDistanceKm, neo.maxDiameterKm)
  }

  /** Order of the classified levels, from `Very Low` up to `High`. */
  function RiskRank(r: Risk): int
  {
    match r
    case VeryLow => 0
    case Low => 1
    case Medium => 2
    case High => 3
    case Unknown => -1
  }

  /** Moving an object closer or making it larger never lowers its risk. */
  lemma RiskMonotone(far: real, near: real, small: real, large: real)
    requires near <= far && small <= large
    ensures RiskRank(ClassifyRisk(Finite(near), large)) >= RiskRank(ClassifyRisk(Finite(far), small))
  {
  }

  /** Two objects that agree on the first approach's distance and on the
      maximum diameter get the same risk, whatever their other approaches. */
  lemma RiskUsesFirstApproachOnly(a: RawNeo, b: RawNeo)
    requires |a.approaches| > 0 && |b.approaches| > 0
    requires a.approaches[0].missDistanceKm == b.approaches[0].missDistanceKm
    requires a.maxDiameterKm == b.maxDiameterKm
    ensures CalculateRiskLevel(a) == CalculateRiskLevel(b)
  {
  }

  /** `getSizeCategory`: thresholds 1 km, 100 m and 10 m, each inclusive. */
  function SizeCategoryOf(diameterKm: real): (c: SizeCategory)
    ensures c == LargeSize <==> diameterKm >= 1.0
    ensures c == MediumSize <==> 0.1 <= diameterKm < 1.0
    ensures c == SmallSize <==> 0.01 <= diameterKm < 0.1
    ensures c == VerySmallSize <==> diameterKm < 0.01
  {
    if diameterKm >= 1.0 then LargeSize
    else if diameterKm >= 0.1 then MediumSize
    else if diameterKm >= 0.01 then SmallSize
    else VerySmallSize
  }

  /** A record after `transformNEORecord`: the upstream fields the model keeps,
      the date key it was listed under, and the derived labels. */
  datatype Neo = Neo(
    id: string,
    name: string,
    maxDiameterKm: real,
    hazardous: bool,
    approaches: seq<Approach>,
    date: string,
    risk: Risk,
    size: SizeCategory)

  /** `transformNEORecord`: the upstream fields, the feed date it was listed
      under, and the two classifications. */
  function TransformRecord(raw: RawNeo, date: string): (n: Neo)
    ensures n.id == raw.id && n.name == raw.name && n.maxDiameterKm == raw.maxDiameterKm
    ensures n.hazardous == raw.hazardous && n.approaches == raw.approaches && n.date == date
    ensures n.risk == Unknown <==> |raw.approaches| == 0
    ensures n.risk == CalculateRiskLevel(raw)
    ensures n.size == LargeSize <==> raw.maxDiameterKm >= 1.0
    ensures n.size == VerySmallSize <==> raw.maxDiameterKm < 0.01
    ensures n.size == SizeCategoryOf(raw.maxDiameterKm)
  {
    Neo(raw.id, raw.name, raw.maxDiameterKm, raw.hazardous, raw.approaches,
        date, CalculateRiskLevel(raw), SizeCategoryOf(raw.maxDiameterKm))
  }

  /** One entry of `near_earth_objects`: a date key and the objects listed under it. */
  datatype DayEntry = DayEntry(date: string, objects: seq<RawNeo>)

  /** The upstream feed; `days` is in `Object.keys` order. */
  datatype Feed = Feed(days: seq<DayEntry>, startDate: string, endDate: string, elementCount: int)

  /** The result of `transformNEOData`. */
  datatype NeoPage = NeoPage(neos: seq<Neo>, totalCount: nat, startDate: string, endDate: string, elementCount: int)

  /** Sum of the per-date list lengths. */
  function TotalListed(days: seq<DayEntry>): nat
  {
    if |days| == 0 then 0 else |days[0].objects| + TotalListed(days[1..])
  }

  /** The objects of one entry, each tagged with the entry's date. */
  function TransformDay(e: DayEntry): (r: seq<Neo>)
    ensures |r| == |e.objects|
    ensures forall j :: 0 <= j < |r| ==> r[j] == TransformRecord(e.objects[j], e.date)
  {
    seq(|e.objects|, j requires 0 <= j < |e.objects| => TransformRecord(e.objects[j], e.date))
  }

  /** The nested `forEach` loops: every date's objects in key order. */
  function FlattenDays(days: seq<DayEntry>): (r: seq<Neo>)
    ensures |r| == TotalListed(days)
    ensures forall i :: 0 <= i < |r| ==> exists k :: 0 <= k < |days| && r[i].date == days[k].date
  {
    if |days| == 0 then []
    else
      var head, rest := TransformDay(days[0]), FlattenDays(days[1..]);
      assert forall i :: 0 <= i < |rest| ==> (head + rest)[|head| + i] == rest[i];
      assert forall k :: 0 <= k < |days| - 1 ==> days[1..][k] == days[k + 1];
      head + rest
  }

  /** `transformNEOData` (and the identical `transformNEOFeedData`). */
  function TransformNeoData(feed: Feed): (p: NeoPage)
    ensures p.totalCount == |p.neos| == TotalListed(feed.days)
    ensures p.neos == FlattenDays(feed.days)
    ensures p.startDate == feed.startDate && p.endDate == feed.endDate && p.elementCount == feed.elementCount
    ensures forall i :: 0 <= i < |p.neos| ==>
      exists k :: 0 <= k < |feed.days| && p.neos[i].date == feed.days[k].date
  {
    var neos := FlattenDays(feed.days);
    NeoPage(neos, |neos|, feed.startDate, feed.endDate, feed.elementCount)
  }

  /** Objects listed before entry `k`. */
  function Offset(days: seq<DayEntry>, k: nat): nat
    requires k <= |days|
  {
    TotalListed(days[..k])
  }

  /** The j-th object of the k-th date appears in the flattened list right after
      the objects of the earlier dates, tagged with date k. */
  lemma {:induction false} FlattenPosition(days: seq<DayEntry>, k: nat, j: nat)
    requires k < |days| && j < |days[k].objects|
    ensures Offset(days, k) + j < |FlattenDays(days)|
    ensures FlattenDays(days)[Offset(days, k) + j] == TransformRecord(days[k].objects[j], days[k].date)
  {
    var head := TransformDay(days[0]);
    if k == 0 {
      assert days[..0] == [];
    } else {
      FlattenPosition(days[1..], k - 1, j);
      assert days[..k][1..] == days[1..][..k - 1];
      assert Offset(days, k) == |days[0].objects| + Offset(days[1..], k - 1);
    }
  }

  /** `getNEOStats`: counts over the flattened list. */
  datatype NeoStats = NeoStats(
    total: nat,
    hazardous: nat,
    nonHazardous: nat,
    high: nat,
    medium: nat,
    low: nat,
    veryLow: nat,
    large: nat,
    mediumSize: nat,
    small: nat,
    verySmall: nat,
    startDate: string,
    endDate: string)

  predicate IsHazardous(n: Neo) { n.hazardous }
  predicate NotHazardous(n: Neo) { !n.hazardous }
  predicate LabelledHigh(n: Neo) { RiskLabel(n.risk) == "High" }
  predicate LabelledMedium(n: Neo) { RiskLabel(n.risk) == "Medium" }
  predicate LabelledLow(n: Neo) { RiskLabel(n.risk) == "Low" }
  predicate LabelledVeryLow(n: Neo) { RiskLabel(n.risk) == "Very Low" }
  predicate MentionsLarge(n: Neo) { Includes(SizeLabel(n.size), "Large") }
  predicate MentionsMedium(n: Neo) { Includes(SizeLabel(n.size), "Medium") }
  predicate MentionsSmall(n: Neo) { Includes(SizeLabel(n.size), "Small") }
  predicate MentionsVerySmall(n: Neo) { Includes(SizeLabel(n.size), "Very Small") }

  /** A needle whose first character never appears in the haystack is not included. */
  lemma NotIncludedWithoutFirstChar(hay: string, needle: string)
    requires |needle| > 0 && needle[0] !in hay
    ensures !Includes(hay, needle)
  {
    forall i | 0 <= i <= |hay| - |needle|
      ensures !OccursAt(hay, needle, i)
    {
      assert hay[i..i + |needle|][0] == hay[i];
    }
  }

  /** Which words each size label contains. 'Very Small' labels also contain
      'Small', so the `small` count includes them. */
  lemma SizeLabelWords(c: SizeCategory)
    ensures Includes(SizeLabel(c), "Large") <==> c == LargeSize
    ensures Includes(SizeLabel(c), "Medium") <==> c == MediumSize
    ensures Includes(SizeLabel(c), "Small") <==> c == SmallSize || c == VerySmallSize
    ensures Includes(SizeLabel(c), "Very Small") <==> c == VerySmallSize
  {
    match c
    case LargeSize => LargeLabelWords();
    case MediumSize => MediumLabelWords();
    case SmallSize => SmallLabelWords();
    case VerySmallSize => VerySmallLabelWords();
  }

  lemma LargeLabelWords()
    ensures Includes("Large (>1km)", "Large")
    ensures !Includes("Large (>1km)", "Medium")
    ensures !Includes("Large (>1km)", "Small")
    ensures !Includes("Large (>1km)", "Very Small")
  {
    assert OccursAt("Large (>1km)", "Large", 0);
    NotIncludedWithoutFirstChar("Large (>1km)", "Medium");
    NotIncludedWithoutFirstChar("Large (>1km)", "Small");
    NotIncludedWithoutFirstChar("Large (>1km)", "Very Small");
  }

  lemma MediumLabelWords()
    ensures !Includes("Medium (100m-1km)", "Large")
    ensures Includes("Medium (100m-1km)", "Medium")
    ensures !Includes("Medium (100m-1km)", "Small")
    ensures !Includes("Medium (100m-1km)", "Very Small")
  {
    assert OccursAt("Medium (100m-1km)", "Medium", 0);
    NotIncludedWithoutFirstChar("Medium (100m-1km)", "Large");
    NotIncludedWithoutFirstChar("Medium (100m-1km)", "Small");
    NotIncludedWithoutFirstChar("Medium (100m-1km)", "Very Small");
  }

  lemma SmallLabelWords()
    ensures !Includes("Small (10m-100m)", "Large")
    ensures !Includes("Small (10m-100m)", "Medium")
    ensures Includes("Small (10m-100m)", "Small")
    ensures !Includes("Small (10m-100m)", "Very Small")
  {
    assert OccursAt("Small (10m-100m)", "Small", 0);
    NotIncludedWithoutFirstChar("Small (10m-100m)", "Large");
    NotIncludedWithoutFirstChar("Small (10m-100m)", "Medium");
    NotIncludedWithoutFirstChar("Small (10m-100m)", "Very Small");
  }

  lemma VerySmallLabelWords()
    ensures !Includes("Very Small (<10m)", "Large")
    ensures !Includes("Very Small (<10m)", "Medium")
    ensures Includes("Very Small (<10m)", "Small")
    ensures Includes("Very Small (<10m)", "Very Small")
  {
    assert OccursAt("Very Small (<10m)", "Small", 5);
    assert OccursAt("Very Small (<10m)", "Very Small", 0);
    NotIncludedWithoutFirstChar("Very Small (<10m)", "Large");
    NotIncludedWithoutFirstChar("Very Small (<10m)", "Medium");
  }

  /** `getNEOStats`: `total_count` is the number of objects listed under all
      dates; every other count is the number of flattened objects that pass
      the source's test; `date_range` is the feed's. */
  function NeoStatsOf(feed: Feed): (st: NeoStats)
    ensures st.total == TotalListed(feed.days)
    ensures var neos := FlattenDays(feed.days);
      && st.hazardous == |Filter(neos, IsHazardous)| && st.nonHazardous == |Filter(neos, NotHazardous)|
      && st.high == |Filter(neos, LabelledHigh)| && st.medium == |Filter(neos, LabelledMedium)|
      && st.low == |Filter(neos, LabelledLow)| && st.veryLow == |Filter(neos, LabelledVeryLow)|
      && st.large == |Filter(neos, MentionsLarge)| && st.mediumSize == |Filter(neos, MentionsMedium)|
      && st.small == |Filter(neos, MentionsSmall)| && st.verySmall == |Filter(neos, MentionsVerySmall)|
    ensures st.hazardous + st.nonHazardous == st.total
    ensures st.startDate == feed.startDate && st.endDate == feed.endDate
  {
    var page := TransformNeoData(feed);
    var neos := page.neos;
    FilterComplement(neos, IsHazardous, NotHazardous);
    NeoStats(
      page.totalCount,
      |Filter(neos, IsHazardous)|,
      |Filter(neos, NotHazardous)|,
      |Filter(neos, LabelledHigh)|,
      |Filter(neos, LabelledMedium)|,
      |Filter(neos, LabelledLow)|,
      |Filter(neos, LabelledVeryLow)|,
      |Filter(neos, MentionsLarge)|,
      |Filter(neos, MentionsMedium)|,
      |Filter(neos, MentionsSmall)|,
      |Filter(neos, MentionsVerySmall)|,
      page.startDate,
      page.endDate)
  }

  /** Counts of one object list, risk bucket by risk bucket. */
  lemma {:induction false} RiskBucketsCover(neos: seq<Neo>)
    ensures |Filter(neos, LabelledHigh)| + |Filter(neos, LabelledMedium)| + |Filter(neos, LabelledLow)|
      + |Filter(neos, LabelledVeryLow)| + |Filter(neos, IsUnknownRisk)| == |neos|
  {
    if |neos| > 0 {
      FilterLengthStep(neos, LabelledHigh);
      FilterLengthStep(neos, LabelledMedium);
      FilterLengthStep(neos, LabelledLow);
      FilterLengthStep(neos, LabelledVeryLow);
      FilterLengthStep(neos, IsUnknownRisk);
      RiskBucketsCover(neos[1..]);
    }
  }

  predicate IsUnknownRisk(n: Neo) { n.risk == Unknown }

  /** The statistics are consistent: hazardous and non-hazardous partition the
      total; the four labelled risk buckets never exceed it (objects with
      `Unknown` risk are in none); every `Very Small` object is also counted
      as `small`; the size buckets other than `small` are disjoint. */
  lemma NeoStatsConsistent(feed: Feed)
    ensures var st := NeoStatsOf(feed);
      && st.hazardous + st.nonHazardous == st.total
      && st.high + st.medium + st.low + st.veryLow <= st.total
      && st.verySmall <= st.small
      && st.large + st.mediumSize + st.small == st.total
  {
    var neos := TransformNeoData(feed).neos;
    FilterComplement(neos, IsHazardous, NotHazardous);
    RiskBucketsCover(neos);
    forall n: Neo ensures MentionsVerySmall(n) ==> MentionsSmall(n) {
      SizeLabelWords(n.size);
    }
    FilterMonotone(neos, MentionsVerySmall, MentionsSmall);
    SizeBucketsCover(neos);
  }

  /** Every object's size label mentions exactly one of Large, Medium, Small. */
  lemma {:induction false} SizeBucketsCover(neos: seq<Neo>)
    ensures |Filter(neos, MentionsLarge)| + |Filter(neos, MentionsMedium)| + |Filter(neos, MentionsSmall)| == |neos|
  {
    if |neos| > 0 {
      SizeLabelWords(neos[0].size);
      SizeBucketsCover(neos[1..]);
    }
  }

  /** `searchNEOsByName`: objects whose lower-cased name includes the
      lower-cased query. */
  function SearchByName(neos: seq<Neo>, query: string): (r: seq<Neo>)
    ensures IsSubsequence(r, neos)
    ensures forall i :: 0 <= i < |r| ==> Includes(Lower(r[i].name), Lower(query))
    ensures forall i :: 0 <= i < |neos| && Includes(Lower(neos[i].name), Lower(query)) ==> neos[i] in r
    ensures multiset(r) <= multiset(neos)
    ensures forall i :: 0 <= i < |neos| && Includes(Lower(neos[i].name), Lower(query)) ==>
      multiset(r)[neos[i]] == multiset(neos)[neos[i]]
  {
    Filter(neos, (n: Neo) => Includes(Lower(n.name), Lower(query)))
  }

  /** `getNEOsByRiskLevel`: objects whose risk label equals the argument exactly. */
  function ByRiskLevel(neos: seq<Neo>, riskLevel: string): (r: seq<Neo>)
    ensures IsSubsequence(r, neos)
    ensures forall i :: 0 <= i < |r| ==> RiskLabel(r[i].risk) == riskLevel
    ensures forall i :: 0 <= i < |neos| && RiskLabel(neos[i].risk) == riskLevel ==> neos[i] in r
    ensures multiset(r) <= multiset(neos)
    ensures forall i :: 0 <= i < |neos| && RiskLabel(neos[i].risk) == riskLevel ==>
      multiset(r)[neos[i]] == multiset(neos)[neos[i]]
  {
    Filter(neos, (n: Neo) => RiskLabel(n.risk) == riskLevel)
  }

  /** An empty query matches every object. */
  lemma SearchEmptyQueryKeepsAll(neos: seq<Neo>)
    ensures SearchByName(neos, "") == neos
  {
    forall i | 0 <= i < |neos| ensures Includes(Lower(neos[i].name), Lower("")) {
      IncludesEmpty(Lower(neos[i].name));
    }
    FilterAll(neos, (n: Neo) => Includes(Lower(n.name), Lower("")));
  }
}
