/** The APOD page's client state (frontend/src/pages/APOD.jsx): the history of
    viewed pictures, the current slideshow index, and the play flag. Each
    handler is a pure transition on that state. */
module ApodPage {
  import opened Outcomes
  import opened Text
  import opened Dates
  import ApodService
  import ApodRoutes
  import ClientApi

  type Apod = ApodService.Apod

  /** History keeps at most this many entries. */
  const HistoryLimit: nat := 10

  /** The page state: the picture shown, the history, the slideshow index and
      whether the slideshow is playing. */
  datatype PageState = PageState(shown: Option<Apod>, history: seq<Apod>, index: int, playing: bool)

  const InitialState: PageState := PageState(None, [], 0, false)

  /** Some history entry has this date. */
  predicate DateInHistory(history: seq<Apod>, date: string)
  {
    exists i :: 0 <= i < |history| && history[i].date == date
  }

  /** No two history entries share a date. */
  predicate DistinctDates(history: seq<Apod>)
  {
    forall i, j :: 0 <= i < j < |history| ==> history[i].date != history[j].date
  }

  /** The history insert of `fetchAPOD`: unless an entry already has the same
      date, the item goes first, followed by the first nine older entries. */
  function AddToHistory(history: seq<Apod>, item: Apod): (h: seq<Apod>)
    ensures DateInHistory(history, item.date) ==> h == history
    ensures !DateInHistory(history, item.date) ==>
      && |h| > 0 && h[0] == item && |h| <= HistoryLimit
      && h[1..] == history[..if |history| < HistoryLimit - 1 then |history| else HistoryLimit - 1]
    ensures |history| <= HistoryLimit ==> |h| <= HistoryLimit
    ensures |h| >= |history| || |h| == HistoryLimit
  {
    if DateInHistory(history, item.date) then history
    else [item] + history[..if |history| < HistoryLimit - 1 then |history| else HistoryLimit - 1]
  }

  /** Inserting keeps the dates distinct and puts the item's date in the history. */
  lemma AddKeepsDatesDistinct(history: seq<Apod>, item: Apod)
    requires DistinctDates(history)
    ensures DistinctDates(AddToHistory(history, item))
    ensures DateInHistory(AddToHistory(history, item), item.date)
  {
    var h := AddToHistory(history, item);
    if !DateInHistory(history, item.date) {
      forall i, j | 0 <= i < j < |h| ensures h[i].date != h[j].date {
        if i == 0 {
          assert h[j] == history[j - 1];
        } else {
          assert h[i] == history[i - 1] && h[j] == history[j - 1];
        }
      }
      assert h[0].date == item.date;
    }
  }

  /** The quotient rounded toward zero, which JavaScript's `%` pairs with. */
  function TruncQuot(a: int, n: int): int
    requires n > 0
  {
    if a >= 0 then a / n else -((-a) / n)
  }

  /** JavaScript's `%`, whose result takes the sign of the dividend. */
  function JsRem(a: int, n: int): (r: int)
    requires n > 0
    ensures a >= 0 ==> r == a % n && 0 <= r < n
    ensures a < 0 ==> -n < r <= 0
    ensures a == n * TruncQuot(a, n) + r
  {
    if a >= 0 then a % n else -((-a) % n)
  }

  /** Within one lap, `%` is the identity except at the end, where it wraps to 0. */
  lemma WrapAround(a: int, n: int)
    requires n > 0
    ensures 0 <= a < n ==> a % n == a
    ensures a == n ==> a % n == 0
  {
  }

  /** `apodHistory[i]`, `undefined` outside the list. */
  function EntryAt(history: seq<Apod>, i: int): Option<Apod>
  {
    if 0 <= i < |history| then Some(history[i]) else None
  }

  /** `handleNext`: `(i + 1) % n`, showing that entry; nothing on an empty history. */
  function Next(s: PageState): (r: PageState)
    ensures |s.history| == 0 ==> r == s
    ensures |s.history| > 0 && s.index >= 0 ==>
      && 0 <= r.index < |s.history|
      && (s.index + 1 < |s.history| ==> r.index == s.index + 1)
      && (s.index + 1 == |s.history| ==> r.index == 0)
      && r.shown == Some(s.history[r.index])
    ensures r.history == s.history && r.playing == s.playing
  {
    if |s.history| == 0 then s
    else
      var i := JsRem(s.index + 1, |s.history|);
      WrapAround(s.index + 1, |s.history|);
      s.(index := i, shown := EntryAt(s.history, i))
  }

  /** `handlePrevious`: from 0 wrap to the last entry, else step back one. */
  function Previous(s: PageState): (r: PageState)
    ensures |s.history| == 0 ==> r == s
    ensures |s.history| > 0 && s.index == 0 ==> r.index == |s.history| - 1
    ensures |s.history| > 0 && s.index != 0 ==> r.index == s.index - 1
    ensures |s.history| > 0 && 0 <= s.index < |s.history| ==>
      0 <= r.index < |s.history| && r.shown == Some(s.history[r.index])
    ensures r.history == s.history && r.playing == s.playing
  {
    if |s.history| == 0 then s
    else
      var i := if s.index == 0 then |s.history| - 1 else s.index - 1;
      s.(index := i, shown := EntryAt(s.history, i))
  }

  /** Previous then Next, or Next then Previous, return to the same index. */
  lemma PreviousNextInverse(s: PageState)
    requires 0 <= s.index < |s.history|
    ensures Next(Previous(s)).index == s.index
    ensures Previous(Next(s)).index == s.index
  {
  }

  /** `handleSlideshow`: flips the play flag, unless the history is empty. */
  function ToggleSlideshow(s: PageState): (r: PageState)
    ensures |s.history| == 0 ==> r == s
    ensures |s.history| > 0 ==> r == s.(playing := !s.playing)
  {
    if |s.history| == 0 then s else s.(playing := !s.playing)
  }

  /** One slideshow interval: advances like Next while playing. */
  function Tick(s: PageState): (r: PageState)
    ensures !s.playing || |s.history| == 0 ==> r == s
    ensures s.playing && |s.history| > 0 ==> r == Next(s)
  {
    if !s.playing || |s.history| == 0 then s else Next(s)
  }

  /** A fetched picture becomes the shown one and enters the history. */
  function Loaded(s: PageState, item: Apod): (r: PageState)
    ensures r.shown == Some(item)
    ensures DateInHistory(r.history, item.date)
    ensures DateInHistory(s.history, item.date) ==> r.history == s.history
    ensures !DateInHistory(s.history, item.date) ==> r.history[0] == item
    ensures r.index == s.index && r.playing == s.playing
  {
    s.(shown := Some(item), history := AddToHistory(s.history, item))
  }

  /** The user and timer actions on the page. */
  datatype Action = Load(item: Apod) | PressNext | PressPrevious | PressPlay | TimerTick

  function Step(s: PageState, a: Action): PageState
  {
    match a
    case Load(item) => Loaded(s, item)
    case PressNext => Next(s)
    case PressPrevious => Previous(s)
    case PressPlay => ToggleSlideshow(s)
    case TimerTick => Tick(s)
  }

  function Run(s: PageState, actions: seq<Action>): PageState
    decreases |actions|
  {
    if |actions| == 0 then s else Run(Step(s, actions[0]), actions[1..])
  }

  /** The state every reachable page is in: at most ten entries with distinct
      dates, and an index inside the history (0 when it is empty). */
  predicate Good(s: PageState)
  {
    && |s.history| <= HistoryLimit
    && DistinctDates(s.history)
    && (if |s.history| == 0 then s.index == 0 else 0 <= s.index < |s.history|)
  }

  /** Every action keeps a good state good. */
  lemma StepKeepsGood(s: PageState, a: Action)
    requires Good(s)
    ensures Good(Step(s, a))
  {
    match a
    case Load(item) => AddKeepsDatesDistinct(s.history, item);
    case PressNext =>
    case PressPrevious =>
    case PressPlay =>
    case TimerTick =>
  }

  /** From the initial state, any sequence of actions leaves a good state:
      the index always names a history entry and the history never holds two
      pictures of the same day or more than ten pictures. */
  lemma {:induction false} RunKeepsGood(s: PageState, actions: seq<Action>)
    requires Good(s)
    ensures Good(Run(s, actions))
    decreases |actions|
  {
    if |actions| > 0 {
      StepKeepsGood(s, actions[0]);
      RunKeepsGood(Step(s, actions[0]), actions[1..]);
    }
  }

  lemma InitialIsGood()
    ensures Good(InitialState)
  {
  }

  /** The date picker's check against the server's: a date the page's
      `validateDate` accepts is one the `/apod/:date` route accepts too, so
      `fetchAPOD` only sends dates the server serves. */
  lemma PickedDateAcceptedByServer(date: string, today: int)
    requires ClientApi.ValidateDate(date, today)
    ensures ApodRoutes.ValidateApod(ApodRoutes.DateRoute(date), today) == Ok(ApodRoutes.GetByDate(date))
  {
  }

  /** Conversely, a real calendar date the server accepts also passes the
      picker's check: the two differ only on an Invalid Date. */
  lemma ServerAcceptedValidDateIsPickable(date: string, today: int)
    requires HasDateShape(date) && ParseIsoDate(date).Some?
    requires ApodRoutes.ValidateApod(ApodRoutes.DateRoute(date), today).Ok?
    ensures ClientApi.ValidateDate(date, today)
  {
  }

  /** Month 13 has the date shape but is an Invalid Date: the server's range
      comparisons are both false for it, so the route accepts it, while the
      picker rejects it. */
  lemma InvalidMonthSplitsTheChecks(today: int)
    ensures ApodRoutes.ValidateApod(ApodRoutes.DateRoute("2024-13-01"), today).Ok?
    ensures !ClientApi.ValidateDate("2024-13-01", today)
  {
    assert HasDateShape("2024-13-01");
    assert MonthField("2024-13-01") == 13;
  }
}
