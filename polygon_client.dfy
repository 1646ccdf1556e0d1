/** The Polygon.io client: the reference trading date, and how the two
    upstream replies (ticker metadata, daily open/close) are classified.
    The HTTP round trip is a parameter: a function from the request the
    client sends to the reply it decodes. */
module PolygonClient {
  import opened Values
  import opened Text

  // ---------------------------------------------------------------------
  // Calendar

  /** A calendar date as a proleptic Gregorian ordinal, the number Python's
      `date.toordinal()` gives: day 1 is Monday, 1 January of year 1. */
  type Day = int

  /** Local wall-clock time as whole minutes since midnight. */
  type Minute = m: int | 0 <= m < 24 * 60

  /** `date.weekday()`: Monday is 0, Saturday 5, Sunday 6. */
  function Weekday(d: Day): (w: int)
    ensures 0 <= w < 7
  {
    (d + 6) % 7
  }

  predicate IsWeekday(d: Day)
  {
    Weekday(d) < 5
  }

  /** 16:10 local time, ten minutes after the 16:00 close. `now.time() < 16:10`
      holds exactly when the whole minutes since midnight are below this. */
  const CutoffMinute: int := 16 * 60 + 10

  /** The day before d is one weekday earlier, Monday wrapping to Sunday. */
  lemma WeekdayOfDayBefore(d: Day)
    ensures Weekday(d - 1) == if Weekday(d) == 0 then 6 else Weekday(d) - 1
  {
    var q := (d + 6) / 7;
    assert d + 6 == 7 * q + Weekday(d);
    if Weekday(d) == 0 {
      assert d + 5 == 7 * (q - 1) + 6;
    } else {
      assert d + 5 == 7 * q + (Weekday(d) - 1);
    }
  }

  /** The latest weekday on or before d (what `while d.weekday() >= 5: d -= 1`
      leaves in d). */
  function WeekdayOnOrBefore(d: Day): Day
  {
    if Weekday(d) == 5 then d - 1 else if Weekday(d) == 6 then d - 2 else d
  }

  lemma WeekdayOnOrBeforeIsLatest(d: Day)
    ensures var r := WeekdayOnOrBefore(d);
      IsWeekday(r) && d - 2 <= r <= d && forall x :: r < x <= d ==> !IsWeekday(x)
  {
    WeekdayOfDayBefore(d);
    WeekdayOfDayBefore(d - 1);
  }

  /** The latest weekday strictly before d: one day back, then over a weekend. */
  function PreviousWeekday(d: Day): Day
  {
    WeekdayOnOrBefore(d - 1)
  }

  /** The reference trading date for local date `today` at local time `minute`:
      a weekend falls back to the latest weekday; a weekday whose session has
      not closed by the cutoff falls back to the weekday before it. */
  function ReferenceDate(today: Day, minute: Minute): Day
  {
    if IsWeekday(today) && minute < CutoffMinute then PreviousWeekday(today)
    else WeekdayOnOrBefore(today)
  }

  /** `PolygonClient.last_trading_day`, with the clock and the time-zone
      conversion replaced by the local date and time they produce. */
  method LastTradingDay(today: Day, minute: Minute) returns (d: Day)
    ensures d == ReferenceDate(today, minute)
    ensures IsWeekday(d) && today - 3 <= d <= today
  {
    d := today;
    WeekdayOnOrBeforeIsLatest(today);
    while Weekday(d) >= 5
      invariant WeekdayOnOrBefore(today) <= d <= today
      invariant WeekdayOnOrBefore(d) == WeekdayOnOrBefore(today)
      decreases d - WeekdayOnOrBefore(today)
    {
      WeekdayOfDayBefore(d);
      d := d - 1;
    }
    if d == today && minute < CutoffMinute {
      d := d - 1;
      WeekdayOnOrBeforeIsLatest(today - 1);
      while Weekday(d) >= 5
        invariant WeekdayOnOrBefore(today - 1) <= d <= today - 1
        invariant WeekdayOnOrBefore(d) == WeekdayOnOrBefore(today - 1)
        decreases d - WeekdayOnOrBefore(today - 1)
      {
        WeekdayOfDayBefore(d);
        d := d - 1;
      }
    }
  }

  /** A Saturday or Sunday gives the Friday just before it, at any time of day. */
  lemma WeekendGivesPrecedingFriday(today: Day, minute: Minute)
    requires !IsWeekday(today)
    ensures var r := ReferenceDate(today, minute);
      Weekday(r) == 4 && today - 2 <= r < today
  {
    WeekdayOfDayBefore(today);
    WeekdayOfDayBefore(today - 1);
  }

  /** A weekday at or after 16:10 is its own reference date. */
  lemma ClosedSessionKeepsToday(today: Day, minute: Minute)
    requires IsWeekday(today) && minute >= CutoffMinute
    ensures ReferenceDate(today, minute) == today
  {
  }

  /** A weekday before 16:10 gives the weekday before it; Monday gives Friday. */
  lemma OpenSessionGivesPreviousWeekday(today: Day, minute: Minute)
    requires IsWeekday(today) && minute < CutoffMinute
    ensures var r := ReferenceDate(today, minute);
      IsWeekday(r) && r < today && (forall x :: r < x < today ==> !IsWeekday(x))
      && (Weekday(today) == 0 ==> r == today - 3)
  {
    WeekdayOnOrBeforeIsLatest(today - 1);
    WeekdayOfDayBefore(today);
    WeekdayOfDayBefore(today - 1);
    WeekdayOfDayBefore(today - 2);
  }

  /** The four cases of the client's tests, in New York local time:
      Wed 2025-08-20 at 17:00 and at 13:00, Sun 2025-08-17 and Sat 2025-08-16
      at 11:00 (ordinals 739483, 739480, 739479; Fri 2025-08-15 is 739478). */
  lemma ReferenceDateExamples()
    ensures ReferenceDate(739483, 17 * 60) == 739483
    ensures ReferenceDate(739483, 13 * 60) == 739482
    ensures ReferenceDate(739480, 11 * 60) == 739478
    ensures ReferenceDate(739479, 11 * 60) == 739478
  {
  }

  // ---------------------------------------------------------------------
  // Ticker metadata: get_company_info

  /** The query of `/v3/reference/tickers` (the API key is configuration). */
  datatype TickerQuery = TickerQuery(ticker: string)

  /** One entry of the decoded `results` list; `name` is None when the key is
      missing or null. */
  datatype TickerEntry = TickerEntry(name: Option<string>)

  /** What the round trip gives: any exception on the way (transport, HTTP
      status, JSON decoding, an unexpected shape), or the decoded body, whose
      `results` is None when missing or null. */
  datatype TickerReply =
    | TickerFailed(message: string)
    | TickerDecoded(results: Option<seq<TickerEntry>>)

  /** The three answers of `get_company_info`: None, `{}` and `{"name": n}`. */
  datatype CompanyInfo = Unavailable | NoName | Named(name: string)

  function ClassifyTickerReply(reply: TickerReply): (info: CompanyInfo)
    ensures info.Unavailable? <==> reply.TickerFailed?
    ensures info.Named? <==>
      reply.TickerDecoded? && reply.results.Some? && |reply.results.value| > 0
      && reply.results.value[0].name.Some? && reply.results.value[0].name.value != ""
    ensures info.Named? ==> info.name == reply.results.value[0].name.value && info.name != ""
  {
    match reply
    case TickerFailed(_) => Unavailable
    case TickerDecoded(results) =>
      if results.Some? && |results.value| > 0 then
        var name := results.value[0].name;
        if name.Some? && name.value != "" then Named(name.value) else NoName
      else NoName
  }

  /** `get_company_info(symbol)`: the ticker is sent upper-cased. */
  function GetCompanyInfo(symbol: string, upstream: TickerQuery -> TickerReply): (info: CompanyInfo)
    ensures info.Unavailable? <==> upstream(TickerQuery(Upper(symbol))).TickerFailed?
    ensures info.Named? ==> info.name != []
  {
    ClassifyTickerReply(upstream(TickerQuery(Upper(symbol))))
  }

  /** Since the query is upper-cased, the answer ignores the case of the symbol. */
  lemma CompanyInfoIgnoresCase(a: string, b: string, upstream: TickerQuery -> TickerReply)
    requires Upper(a) == Upper(b)
    ensures GetCompanyInfo(a, upstream) == GetCompanyInfo(b, upstream)
    ensures upstream(TickerQuery(Upper(a))).TickerFailed? <==> GetCompanyInfo(a, upstream).Unavailable?
  {
  }

  // ---------------------------------------------------------------------
  // Daily open/close: get_daily_data

  /** The path `/v1/open-close/{SYMBOL}/{date}` (the date's ISO text is
      left symbolic). */
  datatype DailyQuery = DailyQuery(ticker: string, date: Day)

  /** A price key of the decoded body: missing or null, a value `float()`
      converts, or one it rejects with the given message. */
  datatype PriceField = Missing | Number(value: Dec) | Unconvertible(error: string)

  /** What the round trip gives: an exception, or the decoded body. `status`
      is None when missing or null. */
  datatype DailyReply =
    | DailyFailed(message: string)
    | DailyDecoded(status: Option<string>, open: PriceField, high: PriceField,
                   low: PriceField, close: PriceField,
                   from: Option<string>, symbol: Option<string>)

  /** The dictionary `get_daily_data` returns, by its `_polygon_status`. */
  datatype Ohlc =
    | OhlcOk(open: Option<Dec>, high: Option<Dec>, low: Option<Dec>, close: Option<Dec>,
             date: Option<string>, symbol: Option<string>)
    | InvalidDate
    | OhlcError(message: string)

  /** `j.get("status") and j.get("status") != "OK"`: present, not empty, not "OK". */
  predicate RejectsDate(status: Option<string>)
  {
    status.Some? && status.value != "" && status.value != "OK"
  }

  /** `float(v) if v is not None else None`, or the error `float` raises. */
  function ConvertPrice(f: PriceField): Outcome<Option<Dec>>
  {
    match f
    case Missing => Returned(None)
    case Number(v) => Returned(Some(v))
    case Unconvertible(e) => Raised(e)
  }

  /** The price a field holds once converted: None exactly when it is absent. */
  predicate PriceMatches(p: Option<Dec>, f: PriceField)
  {
    (p.None? <==> f.Missing?) && (f.Number? ==> p == Some(f.value))
  }

  function ClassifyDailyReply(reply: DailyReply): (r: Ohlc)
    ensures r.InvalidDate? <==> reply.DailyDecoded? && RejectsDate(reply.status)
    ensures r.OhlcError? <==>
      reply.DailyFailed?
      || (!RejectsDate(reply.status)
          && (reply.open.Unconvertible? || reply.high.Unconvertible?
              || reply.low.Unconvertible? || reply.close.Unconvertible?))
    ensures reply.DailyFailed? ==> r == OhlcError(reply.message)
    ensures r.OhlcOk? ==>
      PriceMatches(r.open, reply.open) && PriceMatches(r.high, reply.high)
      && PriceMatches(r.low, reply.low) && PriceMatches(r.close, reply.close)
      && r.date == reply.from && r.symbol == reply.symbol
  {
    match reply
    case DailyFailed(m) => OhlcError(m)
    case DailyDecoded(status, open, high, low, close, from, symbol) =>
      if RejectsDate(status) then InvalidDate
      else
        // the dictionary display converts open, high, low, close in that order
        match (ConvertPrice(open), ConvertPrice(high), ConvertPrice(low), ConvertPrice(close))
        case (Raised(e), _, _, _) => OhlcError(e)
        case (_, Raised(e), _, _) => OhlcError(e)
        case (_, _, Raised(e), _) => OhlcError(e)
        case (_, _, _, Raised(e)) => OhlcError(e)
        case (Returned(o), Returned(h), Returned(l), Returned(c)) => OhlcOk(o, h, l, c, from, symbol)
  }

  /** `get_daily_data(symbol, date)`: the ticker in the path is upper-cased. */
  function GetDailyData(symbol: string, date: Day, upstream: DailyQuery -> DailyReply): (r: Ohlc)
    ensures var reply := upstream(DailyQuery(Upper(symbol), date));
      (r.InvalidDate? <==> reply.DailyDecoded? && RejectsDate(reply.status))
      && (reply.DailyFailed? ==> r == OhlcError(reply.message))
      && (r.OhlcOk? ==> r.date == reply.from && r.symbol == reply.symbol)
  {
    ClassifyDailyReply(upstream(DailyQuery(Upper(symbol), date)))
  }

  /** The ticker is upper-cased before the request: symbols that differ
      only in case get the same answer for the same date. */
  lemma DailyDataIgnoresCase(a: string, b: string, date: Day, upstream: DailyQuery -> DailyReply)
    requires Upper(a) == Upper(b)
    ensures GetDailyData(a, date, upstream) == GetDailyData(b, date, upstream)
    ensures GetDailyData(a, date, upstream) == ClassifyDailyReply(upstream(DailyQuery(Upper(b), date)))
  {
  }

  /** A body without a status, or with status "OK", is classified OK when all
      four prices convert. */
  lemma MissingStatusIsOk(reply: DailyReply)
    requires reply.DailyDecoded? && (reply.status.None? || reply.status == Some("OK"))
    requires !reply.open.Unconvertible? && !reply.high.Unconvertible?
    requires !reply.low.Unconvertible? && !reply.close.Unconvertible?
    ensures ClassifyDailyReply(reply).OhlcOk?
  {
  }
}
