/** The NEO tracker page's client logic (frontend/src/pages/NEOTracker.jsx):
    the list filter, the colour classes, and the date-range edits. */
module NeoTrackerPage {
  import opened Seqs
  import opened Text
  import opened NeoService
  import ClientApi

  /** Name includes the search term and the risk label matches the filter,
      both compared in lower case; filter `'all'` matches every label. */
  predicate KeepNeo(n: Neo, searchTerm: string, riskFilter: string): (b: bool)
    ensures b ==> Includes(Lower(n.name), Lower(searchTerm))
    ensures riskFilter == "all" ==> (b <==> Includes(Lower(n.name), Lower(searchTerm)))
    ensures searchTerm == "" && riskFilter == "all" ==> b
    ensures riskFilter == "high" ==> (b <==> Includes(Lower(n.name), Lower(searchTerm)) && n.risk == High)
    ensures riskFilter == "medium" ==> (b <==> Includes(Lower(n.name), Lower(searchTerm)) && n.risk == Medium)
    ensures riskFilter == "low" ==> (b <==> Includes(Lower(n.name), Lower(searchTerm)) && n.risk == Low)
  {
    LowerRiskLabels();
    IncludesEmpty(Lower(n.name));
    && Includes(Lower(n.name), Lower(searchTerm))
    && (riskFilter == "all" || Lower(RiskLabel(n.risk)) == riskFilter)
  }

  /** `filteredNeos`: the fetched objects that pass both tests, in order. */
  function FilteredNeos(neos: seq<Neo>, searchTerm: string, riskFilter: string): (r: seq<Neo>)
    ensures IsSubsequence(r, neos)
    ensures forall i :: 0 <= i < |r| ==> KeepNeo(r[i], searchTerm, riskFilter)
    ensures forall i :: 0 <= i < |neos| && KeepNeo(neos[i], searchTerm, riskFilter) ==> neos[i] in r
    ensures multiset(r) <= multiset(neos)
    ensures forall i :: 0 <= i < |neos| && KeepNeo(neos[i], searchTerm, riskFilter) ==>
      multiset(r)[neos[i]] == multiset(neos)[neos[i]]
  {
    Filter(neos, (n: Neo) => KeepNeo(n, searchTerm, riskFilter))
  }

  /** The lower-cased risk labels. */
  lemma LowerRiskLabels()
    ensures Lower(RiskLabel(High)) == "high"
    ensures Lower(RiskLabel(Medium)) == "medium"
    ensures Lower(RiskLabel(Low)) == "low"
    ensures Lower(RiskLabel(VeryLow)) == "very low"
    ensures Lower(RiskLabel(Unknown)) == "unknown"
  {
    assert Lower("High") == "high";
    assert Lower("Medium") == "medium";
    assert Lower("Low") == "low";
    assert Lower("Very Low") == "very low";
    assert Lower("Unknown") == "unknown";
  }

  /** With no search term and filter `'all'` every object is listed. */
  lemma NoFilterKeepsAll(neos: seq<Neo>)
    ensures FilteredNeos(neos, "", "all") == neos
  {
    forall i | 0 <= i < |neos| ensures KeepNeo(neos[i], "", "all") {
      IncludesEmpty(Lower(neos[i].name));
    }
    FilterAll(neos, (n: Neo) => KeepNeo(n, "", "all"));
  }

  /** A `'high'`, `'medium'` or `'low'` filter keeps only objects of exactly
      that risk; `Very Low` and `Unknown` objects are never kept by these. */
  lemma RiskFilterExact(neos: seq<Neo>, searchTerm: string)
    ensures forall n :: n in FilteredNeos(neos, searchTerm, "high") ==> n.risk == High
    ensures forall n :: n in FilteredNeos(neos, searchTerm, "medium") ==> n.risk == Medium
    ensures forall n :: n in FilteredNeos(neos, searchTerm, "low") ==> n.risk == Low
    ensures forall i :: 0 <= i < |neos| && neos[i].risk == High && Includes(Lower(neos[i].name), Lower(searchTerm)) ==>
      neos[i] in FilteredNeos(neos, searchTerm, "high")
    ensures forall i :: 0 <= i < |neos| && neos[i].risk == Medium && Includes(Lower(neos[i].name), Lower(searchTerm)) ==>
      neos[i] in FilteredNeos(neos, searchTerm, "medium")
    ensures forall i :: 0 <= i < |neos| && neos[i].risk == Low && Includes(Lower(neos[i].name), Lower(searchTerm)) ==>
      neos[i] in FilteredNeos(neos, searchTerm, "low")
  {
    LowerRiskLabels();
  }

  const RedClasses: string := "text-red-400 bg-red-400/10 border-red-400/20"
  const YellowClasses: string := "text-yellow-400 bg-yellow-400/10 border-yellow-400/20"
  const GreenClasses: string := "text-green-400 bg-green-400/10 border-green-400/20"
  const SlateClasses: string := "text-slate-400 bg-slate-400/10 border-slate-400/20"

  /** `getRiskColor`: a switch on the lower-cased label. */
  function RiskColor(riskLevel: string): (c: string)
    ensures Lower(riskLevel) == "high" <==> c == RedClasses
    ensures Lower(riskLevel) == "medium" <==> c == YellowClasses
    ensures Lower(riskLevel) == "low" <==> c == GreenClasses
    ensures c == SlateClasses <==> Lower(riskLevel) !in ["high", "medium", "low"]
  {
    var l := Lower(riskLevel);
    if l == "high" then RedClasses
    else if l == "medium" then YellowClasses
    else if l == "low" then GreenClasses
    else SlateClasses
  }

  /** The labels the service produces get their colours; 'Very Low' and
      'Unknown' both fall to the slate default. */
  lemma RiskColorsOfLabels()
    ensures RiskColor(RiskLabel(High)) == RedClasses
    ensures RiskColor(RiskLabel(Medium)) == YellowClasses
    ensures RiskColor(RiskLabel(Low)) == GreenClasses
    ensures RiskColor(RiskLabel(VeryLow)) == SlateClasses
    ensures RiskColor(RiskLabel(Unknown)) == SlateClasses
  {
    LowerRiskLabels();
  }

  /** `getSizeColor`: tests 'Large', then 'Medium', then 'Small'. */
  function SizeColor(sizeCategory: string): (c: string)
    ensures Includes(sizeCategory, "Large") ==> c == "text-red-400"
    ensures !Includes(sizeCategory, "Large") && Includes(sizeCategory, "Medium") ==> c == "text-yellow-400"
    ensures !Includes(sizeCategory, "Large") && !Includes(sizeCategory, "Medium") && Includes(sizeCategory, "Small")
      ==> c == "text-green-400"
    ensures !Includes(sizeCategory, "Large") && !Includes(sizeCategory, "Medium") && !Includes(sizeCategory, "Small")
      ==> c == "text-slate-400"
  {
    if Includes(sizeCategory, "Large") then "text-red-400"
    else if Includes(sizeCategory, "Medium") then "text-yellow-400"
    else if Includes(sizeCategory, "Small") then "text-green-400"
    else "text-slate-400"
  }

  /** 'Very Small' objects share the green of 'Small' ones; no service label
      reaches the slate default. */
  lemma SizeColorsOfLabels()
    ensures SizeColor(SizeLabel(LargeSize)) == "text-red-400"
    ensures SizeColor(SizeLabel(MediumSize)) == "text-yellow-400"
    ensures SizeColor(SizeLabel(SmallSize)) == "text-green-400"
    ensures SizeColor(SizeLabel(VerySmallSize)) == "text-green-400"
  {
    SizeLabelWords(LargeSize);
    SizeLabelWords(MediumSize);
    SizeLabelWords(SmallSize);
    SizeLabelWords(VerySmallSize);
  }

  /** The two ends of the selected date range. */
  datatype DateRange = DateRange(startDate: string, endDate: string)

  datatype RangeField = StartDate | EndDate

  /** `handleDateRangeChange`: replaces one end, keeps the other. */
  function ChangeDateRange(r: DateRange, field: RangeField, value: string): (r': DateRange)
    ensures field == StartDate ==> r'.startDate == value && r'.endDate == r.endDate
    ensures field == EndDate ==> r'.endDate == value && r'.startDate == r.startDate
  {
    match field
    case StartDate => r.(startDate := value)
    case EndDate => r.(endDate := value)
  }

  /** The page opens on `getDateRange(7)`: the last seven days up to today. */
  lemma InitialRangeIsLastWeek(today: int)
    ensures var r := ClientApi.GetDateRange(7, today);
      r.endDay == today && r.startDay == today - 7
  {
  }
}
