/** Client-side helpers (frontend/src/services/api.js): date validation and
    formatting, the default date range, and the loading counter. Dates are UTC
    day numbers; `today` is the current day. */
module ClientApi {
  import opened Outcomes
  import opened Text
  import opened Dates

  /** `validateDate`: the `YYYY-MM-DD` shape, then 1995-06-16 <= date <= today.
      An Invalid Date fails both comparisons. */
  function ValidateDate(s: string, today: int): (ok: bool)
    ensures !HasDateShape(s) ==> !ok
    ensures HasDateShape(s) ==>
      (ok <==> ParseIsoDate(s).Some? && ApodFirstDay <= ParseIsoDate(s).value <= today)
  {
    if !HasDateShape(s) then false
    else
      var d := ParseIsoDate(s);
      d.Some? && d.value >= ApodFirstDay && d.value <= today
  }

  /** What `formatDate` is given: a falsy value, or something `new Date`
      turns into a day (`None` for an Invalid Date). */
  datatype DateInput = Falsy | DateOf(day: Option<int>)

  /** What `formatDate` produces: `''`, the ISO text of a day, or the
      `RangeError` that `toISOString` throws for an Invalid Date. */
  datatype Formatted = Blank | IsoDay(day: int) | InvalidTime

  /** `formatDate`: blank for a falsy input; a future date is replaced by today. */
  function FormatDate(input: DateInput, today: int): (r: Formatted)
    ensures r == Blank <==> input.Falsy?
    ensures r == InvalidTime <==> input.DateOf? && input.day.None?
    ensures r.IsoDay? ==> r.day <= today
    ensures r.IsoDay? ==> r.day == (if input.day.value > today then today else input.day.value)
  {
    match input
    case Falsy => Blank
    case DateOf(None) => InvalidTime
    case DateOf(Some(d)) => if d > today then IsoDay(today) else IsoDay(d)
  }

  /** Formatting a date that is not in the future leaves it unchanged, and
      formatting is idempotent. */
  lemma FormatDateIdempotent(d: int, today: int)
    ensures d <= today ==> FormatDate(DateOf(Some(d)), today) == IsoDay(d)
    ensures var r := FormatDate(DateOf(Some(d)), today);
      FormatDate(DateOf(Some(r.day)), today) == r
  {
  }

  /** A start and end day, as `getDateRange` returns them. */
  datatype DayRange = DayRange(startDay: int, endDay: int)

  /** `getDateRange(days)`: the end is today; the start is `days` earlier,
      clamped to today when that would be in the future. */
  function GetDateRange(days: int, today: int): (r: DayRange)
    ensures r.endDay == today
    ensures r.startDay <= r.endDay
    ensures days >= 0 ==> r.endDay - r.startDay == days
    ensures days < 0 ==> r.startDay == today
  {
    var start := today - days;
    var end := today;
    var start' := if start > today then today else start;
    var end' := if end > today then today else end;
    DayRange(FormatDate(DateOf(Some(start')), today).day, FormatDate(DateOf(Some(end')), today).day)
  }

  /** `createLoadingState`: the number of requests in flight. */
  datatype LoadingState = LoadingState(count: nat)

  const NotLoading: LoadingState := LoadingState(0)

  /** `startLoading`: one more request in flight, so the state is loading. */
  function StartLoading(s: LoadingState): (r: LoadingState)
    ensures r.count == s.count + 1
    ensures IsLoading(r)
  {
    LoadingState(s.count + 1)
  }

  /** `Math.max(0, loadingCount - 1)`. */
  function StopLoading(s: LoadingState): (r: LoadingState)
    ensures s.count == 0 ==> r.count == 0
    ensures s.count > 0 ==> r.count + 1 == s.count
  {
    LoadingState(if s.count == 0 then 0 else s.count - 1)
  }

  /** `isLoading`: some request is still in flight, i.e. the counter is away
      from its initial value. */
  predicate IsLoading(s: LoadingState): (b: bool)
    ensures b <==> s != NotLoading
  {
    s.count > 0
  }

  /** A `start` followed by a `stop` restores the previous state. */
  lemma StartStopRestores(s: LoadingState)
    ensures StopLoading(StartLoading(s)) == s
    ensures IsLoading(StartLoading(s))
  {
  }

  /** One `start` or `stop` call. */
  datatype LoadingCall = Start | Stop

  function RunLoading(s: LoadingState, calls: seq<LoadingCall>): LoadingState
    decreases |calls|
  {
    if |calls| == 0 then s
    else RunLoading(if calls[0] == Start then StartLoading(s) else StopLoading(s), calls[1..])
  }

  function CountCalls(calls: seq<LoadingCall>, c: LoadingCall): nat
  {
    if |calls| == 0 then 0 else (if calls[0] == c then 1 else 0) + CountCalls(calls[1..], c)
  }

  /** The counter never goes below zero and never exceeds the number of
      starts. */
  lemma {:induction false} LoadingCounterBounds(s: LoadingState, calls: seq<LoadingCall>)
    ensures RunLoading(s, calls).count <= s.count + CountCalls(calls, Start)
    ensures RunLoading(s, calls).count >= s.count + CountCalls(calls, Start) - CountCalls(calls, Stop)
    decreases |calls|
  {
    if |calls| > 0 {
      var next := if calls[0] == Start then StartLoading(s) else StopLoading(s);
      LoadingCounterBounds(next, calls[1..]);
    }
  }

  /** `n` calls of the same kind. */
  function Repeat(c: LoadingCall, n: nat): (r: seq<LoadingCall>)
    ensures |r| == n && forall i :: 0 <= i < n ==> r[i] == c
  {
    if n == 0 then [] else [c] + Repeat(c, n - 1)
  }

  /** Running two call sequences one after the other. */
  lemma {:induction false} RunLoadingAppend(s: LoadingState, a: seq<LoadingCall>, b: seq<LoadingCall>)
    ensures RunLoading(s, a + b) == RunLoading(RunLoading(s, a), b)
    decreases |a|
  {
    if |a| == 0 {
      assert a + b == b;
    } else {
      assert (a + b)[0] == a[0] && (a + b)[1..] == a[1..] + b;
      RunLoadingAppend(if a[0] == Start then StartLoading(s) else StopLoading(s), a[1..], b);
    }
  }

  /** `n` starts raise the counter by exactly `n`. */
  lemma {:induction false} StartsAdd(s: LoadingState, n: nat)
    ensures RunLoading(s, Repeat(Start, n)).count == s.count + n
    decreases n
  {
    if n > 0 {
      StartsAdd(StartLoading(s), n - 1);
    }
  }

  /** At least as many stops as requests in flight bring the state back to not loading. */
  lemma {:induction false} StopsDrain(s: LoadingState, n: nat)
    requires n >= s.count
    ensures RunLoading(s, Repeat(Stop, n)) == NotLoading
    decreases n
  {
    if n > 0 {
      StopsDrain(StopLoading(s), n - 1);
    }
  }

  /** Starting idle, `n` starts followed by `n` stops leave nothing loading,
      and the state is loading in between whenever `n > 0`. */
  lemma BalancedCallsDrain(n: nat)
    ensures n > 0 ==> IsLoading(RunLoading(NotLoading, Repeat(Start, n)))
    ensures !IsLoading(RunLoading(NotLoading, Repeat(Start, n) + Repeat(Stop, n)))
  {
    RunLoadingAppend(NotLoading, Repeat(Start, n), Repeat(Stop, n));
    StartsAdd(NotLoading, n);
    StopsDrain(RunLoading(NotLoading, Repeat(Start, n)), n);
  }
}
