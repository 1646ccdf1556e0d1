/** The stock service: the consolidated payload built from the ledger, the
    Polygon client and the MarketWatch scraper, and the read-through result
    cache in front of it. Every upstream answer comes from a parameter. */
module StockService {
  import opened Values
  import opened Text
  import opened Models
  import opened PolygonClient
  import opened MarketwatchScraper

  // ---------------------------------------------------------------------
  // Cache keys

  const CachePrefix := "stock:"

  /** `_cache_key(symbol)`. */
  function CacheKey(symbol: string): (key: string)
    ensures |key| == |CachePrefix| + |symbol| && key[..|CachePrefix|] == CachePrefix
    ensures key[|CachePrefix|..] == Upper(symbol) && IsUpperCase(key[|CachePrefix|..])
  {
    UpperIsIdempotent(symbol);
    assert (CachePrefix + Upper(symbol))[|CachePrefix|..] == Upper(symbol);
    CachePrefix + Upper(symbol)
  }

  /** Two symbols share a cache entry exactly when they upper-case alike. */
  lemma {:induction false} CacheKeyIgnoresCase(a: string, b: string)
    ensures CacheKey(a) == CacheKey(b) <==> Upper(a) == Upper(b)
  {
    if CacheKey(a) == CacheKey(b) {
      assert Upper(a) == CacheKey(a)[|CachePrefix|..];
      assert Upper(b) == CacheKey(b)[|CachePrefix|..];
    }
  }

  /** Upper-casing the symbol first changes nothing. */
  lemma {:induction false} CacheKeyOfUpper(symbol: string)
    ensures CacheKey(Upper(symbol)) == CacheKey(symbol)
  {
    UpperIsIdempotent(symbol);
  }

  // ---------------------------------------------------------------------
  // Ledger queries

  /** `Sum("amount")` over the rows of a code, with no rows giving 0. */
  function TotalAmount(rows: seq<Stock>, code: string): (total: real)
    ensures (forall i :: 0 <= i < |rows| && rows[i].companyCode == code ==> Value(rows[i].amount) > 0.0)
            ==> total >= 0.0
  {
    if rows == [] then 0.0
    else
      var last := rows[|rows| - 1];
      TotalAmount(rows[..|rows| - 1], code) + (if last.companyCode == code then Value(last.amount) else 0.0)
  }

  /** A new row adds its amount to the total of its own code only. */
  lemma {:induction false} TotalAmountAppend(rows: seq<Stock>, row: Stock, code: string)
    ensures TotalAmount(rows + [row], code)
         == TotalAmount(rows, code) + (if row.companyCode == code then Value(row.amount) else 0.0)
  {
    assert (rows + [row])[..|rows|] == rows;
  }

  /** Without rows for the code the total is zero. */
  lemma {:induction false} TotalAmountOfNoRows(rows: seq<Stock>, code: string)
    requires forall i :: 0 <= i < |rows| ==> rows[i].companyCode != code
    ensures TotalAmount(rows, code) == 0.0
  {
    if rows != [] {
      var init := rows[..|rows| - 1];
      assert forall i :: 0 <= i < |init| ==> init[i] == rows[i];
      TotalAmountOfNoRows(init, code);
    }
  }

  const Purchased := "purchased"
  const NotPurchased := "none"

  /** `"purchased" if total > 0 else "none"`. */
  function PurchasedStatus(total: real): (status: string)
    ensures status == Purchased <==> total > 0.0
    ensures status == Purchased || status == NotPurchased
  {
    if total > 0.0 then Purchased else NotPurchased
  }

  /** `_latest_company_name(code)`: with no ordering given the query returns
      the first row in primary-key order, so this is the EARLIEST non-empty
      name stored for the code. */
  function LatestCompanyName(rows: seq<Stock>, code: string): (name: Option<string>)
    ensures name.Some? ==> name.value != []
  {
    if rows == [] then None
    else if rows[0].companyCode == code && rows[0].companyName != [] then Some(rows[0].companyName)
    else LatestCompanyName(rows[1..], code)
  }

  /** A row that holds a non-empty name for the code. */
  predicate NamesCode(row: Stock, code: string)
  {
    row.companyCode == code && row.companyName != []
  }

  /** The name is the one of the first row naming the code... */
  lemma {:induction false} LatestCompanyNameIsEarliest(rows: seq<Stock>, code: string, i: int)
    requires 0 <= i < |rows| && NamesCode(rows[i], code)
    requires forall j :: 0 <= j < i ==> !NamesCode(rows[j], code)
    ensures LatestCompanyName(rows, code) == Some(rows[i].companyName)
  {
    if i > 0 {
      assert forall j :: 0 <= j < i - 1 ==> rows[1..][j] == rows[j + 1];
      LatestCompanyNameIsEarliest(rows[1..], code, i - 1);
    }
  }

  /** ...and there is none when no row names the code. */
  lemma {:induction false} LatestCompanyNameAbsent(rows: seq<Stock>, code: string)
    requires forall j :: 0 <= j < |rows| ==> !NamesCode(rows[j], code)
    ensures LatestCompanyName(rows, code) == None
  {
    if rows != [] {
      assert forall j :: 0 <= j < |rows| - 1 ==> rows[1..][j] == rows[j + 1];
      LatestCompanyNameAbsent(rows[1..], code);
    }
  }

  /** Later purchases never change a name already found. */
  lemma {:induction false} LatestCompanyNameKeepsFirst(rows: seq<Stock>, row: Stock, code: string)
    requires LatestCompanyName(rows, code).Some?
    ensures LatestCompanyName(rows + [row], code) == LatestCompanyName(rows, code)
  {
    if !NamesCode(rows[0], code) {
      assert (rows + [row])[1..] == rows[1..] + [row];
      LatestCompanyNameKeepsFirst(rows[1..], row, code);
    }
  }

  // ---------------------------------------------------------------------
  // Recent OHLC

  /** How many dates the OHLC loop may try. */
  const OhlcAttempts: nat := 5

  /** The k-th date the loop tries: the trade date, then each time the
      weekday before the previous one. */
  function AttemptDate(start: Day, k: nat): Day
  {
    if k == 0 then start else PreviousWeekday(AttemptDate(start, k - 1))
  }

  function AttemptDates(start: Day, n: nat): (ds: seq<Day>)
    ensures |ds| == n
  {
    seq(n, k requires 0 <= k < n => AttemptDate(start, k))
  }

  lemma {:induction false} AttemptDatesGrow(start: Day, n: nat)
    ensures AttemptDates(start, n + 1) == AttemptDates(start, n) + [AttemptDate(start, n)]
  {
  }

  /** Every later attempt is a weekday strictly before, and at most three
      days before, the one it follows. */
  lemma {:induction false} AttemptDateStep(start: Day, k: nat)
    requires k >= 1
    ensures var d := AttemptDate(start, k - 1);
      IsWeekday(AttemptDate(start, k)) && d - 3 <= AttemptDate(start, k) < d
  {
    WeekdayOnOrBeforeIsLatest(AttemptDate(start, k - 1) - 1);
  }

  /** The number of fetches the loop makes once k of them found no data:
      it stops at the first OK, or after the fifth fetch. */
  function Attempts(symbol: string, start: Day, daily: DailyQuery -> DailyReply, k: nat): (n: nat)
    requires k < OhlcAttempts
    ensures k < n <= OhlcAttempts
    decreases OhlcAttempts - k
  {
    if GetDailyData(symbol, AttemptDate(start, k), daily).OhlcOk? || k + 1 == OhlcAttempts then k + 1
    else Attempts(symbol, start, daily, k + 1)
  }

  /** The OHLC result the loop ends with: the answer to its last fetch. */
  function RecentOhlc(symbol: string, start: Day, daily: DailyQuery -> DailyReply): Ohlc
  {
    GetDailyData(symbol, AttemptDate(start, Attempts(symbol, start, daily, 0) - 1), daily)
  }

  /** Whether the fetch of the k-th date found data. */
  predicate FoundAt(symbol: string, start: Day, daily: DailyQuery -> DailyReply, k: nat)
  {
    GetDailyData(symbol, AttemptDate(start, k), daily).OhlcOk?
  }

  /** The loop makes n fetches when the first n - 1 found nothing and the
      n-th found data or was the fifth. */
  lemma {:induction false} AttemptsCount(symbol: string, start: Day, daily: DailyQuery -> DailyReply, k: nat, n: nat)
    requires k < n <= OhlcAttempts
    requires forall j :: k <= j < n - 1 ==> !FoundAt(symbol, start, daily, j)
    requires FoundAt(symbol, start, daily, n - 1) || n == OhlcAttempts
    ensures Attempts(symbol, start, daily, k) == n
    decreases n - k
  {
    if k + 1 < n {
      assert !FoundAt(symbol, start, daily, k);
      AttemptsCount(symbol, start, daily, k + 1, n);
    }
  }

  /** The fetches before the last found nothing, and the last one found data
      or was the fifth. */
  lemma {:induction false} AttemptsStopAtFirstOk(symbol: string, start: Day, daily: DailyQuery -> DailyReply, k: nat)
    requires k < OhlcAttempts
    ensures var n := Attempts(symbol, start, daily, k);
      (forall j :: k <= j < n - 1 ==> !FoundAt(symbol, start, daily, j))
      && (FoundAt(symbol, start, daily, n - 1) || n == OhlcAttempts)
    decreases OhlcAttempts - k
  {
    if !FoundAt(symbol, start, daily, k) && k + 1 < OhlcAttempts {
      AttemptsStopAtFirstOk(symbol, start, daily, k + 1);
    }
  }

  /** The loop gives OHLC data exactly when one of the five dates has it, and
      then it is the data of the first such date. */
  lemma {:induction false} RecentOhlcIsFirstFound(symbol: string, start: Day, daily: DailyQuery -> DailyReply)
    ensures RecentOhlc(symbol, start, daily).OhlcOk?
        <==> exists k :: 0 <= k < OhlcAttempts && FoundAt(symbol, start, daily, k)
    ensures forall k :: (0 <= k < OhlcAttempts && FoundAt(symbol, start, daily, k)
        ==> Attempts(symbol, start, daily, 0) <= k + 1)
  {
    var n := Attempts(symbol, start, daily, 0);
    AttemptsStopAtFirstOk(symbol, start, daily, 0);
    assert RecentOhlc(symbol, start, daily).OhlcOk? <==> FoundAt(symbol, start, daily, n - 1);
    if exists k :: 0 <= k < OhlcAttempts && FoundAt(symbol, start, daily, k) {
      var k :| 0 <= k < OhlcAttempts && FoundAt(symbol, start, daily, k);
      assert n - 1 <= k;
    }
  }

  /** `for _ in range(5)` over the attempt dates: fetch, stop at the first
      OK, else step back one day and over any weekend. Gives the last answer
      and the dates it asked for. */
  method FetchRecentOhlc(symbol: string, tradeDate: Day, daily: DailyQuery -> DailyReply)
      returns (ohlc: Ohlc, tried: seq<Day>)
    ensures tried == AttemptDates(tradeDate, Attempts(symbol, tradeDate, daily, 0))
    ensures ohlc == RecentOhlc(symbol, tradeDate, daily)
  {
    var d := tradeDate;
    ohlc := OhlcError("");
    tried := [];
    var i := 0;
    while i < OhlcAttempts
      invariant 0 <= i <= OhlcAttempts
      invariant tried == AttemptDates(tradeDate, i)
      invariant d == AttemptDate(tradeDate, i)
      invariant forall k :: 0 <= k < i ==> !FoundAt(symbol, tradeDate, daily, k)
      invariant i > 0 ==> ohlc == GetDailyData(symbol, AttemptDate(tradeDate, i - 1), daily)
    {
      ohlc := GetDailyData(symbol, d, daily);
      AttemptDatesGrow(tradeDate, i);
      tried := tried + [d];
      if ohlc.OhlcOk? {
        break;
      }
      var before := d;
      d := d - 1;
      WeekdayOnOrBeforeIsLatest(before - 1);
      while Weekday(d) >= 5
        invariant WeekdayOnOrBefore(before - 1) <= d <= before - 1
        invariant WeekdayOnOrBefore(d) == WeekdayOnOrBefore(before - 1)
        decreases d - WeekdayOnOrBefore(before - 1)
      {
        WeekdayOfDayBefore(d);
        d := d - 1;
      }
      assert d == AttemptDate(tradeDate, i + 1);
      i := i + 1;
    }
    var n := |tried|;
    assert 1 <= n <= OhlcAttempts && tried == AttemptDates(tradeDate, n);
    assert ohlc == GetDailyData(symbol, AttemptDate(tradeDate, n - 1), daily);
    AttemptsCount(symbol, tradeDate, daily, 0, n);
  }

  // ---------------------------------------------------------------------
  // The payload

  /** Where the upstream answers come from: the local date and time the
      client's clock gives, and the three round trips. */
  datatype Upstream = Upstream(
    today: Day, minute: Minute,
    tickers: TickerQuery -> TickerReply,
    daily: DailyQuery -> DailyReply,
    pages: string -> PageFetch)

  datatype StockValues = StockValues(open: Option<Dec>, high: Option<Dec>, low: Option<Dec>, close: Option<Dec>)

  /** `ohlc.get("date") or trade_date.isoformat()`: the text of the reply, or
      the trade date (its ISO text is left symbolic). */
  datatype RequestDate = ReplyDate(text: string) | TradeDateIso(day: Day)

  /** The payload: the consolidated `"status": "ok"` dictionary, or an
      `"status": "error"` one with its message. */
  datatype Payload =
    | Consolidated(purchasedAmount: real, purchasedStatus: string, requestDate: RequestDate,
                   companyCode: string, companyName: string, stockValues: StockValues,
                   performanceData: Performance, competitors: seq<Competitor>)
    | ErrorPayload(error: string)

  /** A payload with its HTTP status. */
  datatype Response = Response(payload: Payload, status: int)

  const ServiceUnavailable := "ticker validation service temporarily unavailable"
  const InvalidTicker := "invalid or unknown ticker"
  const NoRecentOhlc := "could not retrieve recent OHLC data"

  function RequestDateOf(date: Option<string>, tradeDate: Day): RequestDate
  {
    if date.Some? && date.value != [] then ReplyDate(date.value) else TradeDateIso(tradeDate)
  }

  /** `performance_data`: the five keys, each read with `.get`. */
  function PerformanceData(p: Performance): (data: Performance)
    ensures data.Keys == AllPerfKeys
    ensures forall key :: key in data ==> data[key] == (if key in p then p[key] else None)
  {
    map key | key in AllPerfKeys :: if key in p then p[key] else None
  }

  /** The name `build_payload` resolves: the stored one, else the one the
      ticker lookup gives (the lookup is made only without a stored name). */
  function ResolveName(code: string, rows: seq<Stock>, tickers: TickerQuery -> TickerReply): CompanyInfo
  {
    var stored := LatestCompanyName(rows, code);
    if stored.Some? then Named(stored.value) else GetCompanyInfo(code, tickers)
  }

  /** `build_payload(symbol)` against a ledger and the upstream answers; the
      scraper's exceptions are not caught and escape. */
  function Build(symbol: string, rows: seq<Stock>, up: Upstream): Outcome<Response>
  {
    var code := Upper(symbol);
    var total := TotalAmount(rows, code);
    var info := ResolveName(code, rows, up.tickers);
    if info.Unavailable? then Returned(Response(ErrorPayload(ServiceUnavailable), 503))
    else if info.NoName? then Returned(Response(ErrorPayload(InvalidTicker), 400))
    else
      var tradeDate := ReferenceDate(up.today, up.minute);
      var ohlc := RecentOhlc(code, tradeDate, up.daily);
      if !ohlc.OhlcOk? then Returned(Response(ErrorPayload(NoRecentOhlc), 503))
      else
        match Scrape(up.pages(PageUrl(code)))
        case Raised(err) => Raised(err)
        case Returned(scrap) =>
          Returned(Response(
            Consolidated(total, PurchasedStatus(total), RequestDateOf(ohlc.date, tradeDate), code, info.name,
                         StockValues(ohlc.open, ohlc.high, ohlc.low, ohlc.close),
                         PerformanceData(scrap.performance), scrap.competitors),
            200))
  }

  /** `build_payload(symbol)`, step by step, reading the ledger. */
  method BuildPayload(symbol: string, ledger: StockTable, up: Upstream) returns (r: Outcome<Response>)
    ensures r == Build(symbol, ledger.rows, up)
  {
    var code := Upper(symbol);
    var total := TotalAmount(ledger.rows, code);
    var purchasedStatus := PurchasedStatus(total);
    var companyName := LatestCompanyName(ledger.rows, code);
    var name: string;
    if companyName.None? {
      var info := GetCompanyInfo(code, up.tickers);
      if info.Unavailable? {
        return Returned(Response(ErrorPayload(ServiceUnavailable), 503));
      }
      if info.NoName? {
        return Returned(Response(ErrorPayload(InvalidTicker), 400));
      }
      name := info.name;
    } else {
      name := companyName.value;
    }
    var tradeDate := LastTradingDay(up.today, up.minute);
    var ohlc, _ := FetchRecentOhlc(code, tradeDate, up.daily);
    if !ohlc.OhlcOk? {
      return Returned(Response(ErrorPayload(NoRecentOhlc), 503));
    }
    var scrap := GetScrappingData(code, up.pages);
    if scrap.Raised? {
      return Raised(scrap.error);
    }
    var data := scrap.value;
    return Returned(Response(
      Consolidated(total, purchasedStatus, RequestDateOf(ohlc.date, tradeDate), code, name,
                   StockValues(ohlc.open, ohlc.high, ohlc.low, ohlc.close),
                   PerformanceData(data.performance), data.competitors),
      200));
  }

  /** The status is 200 exactly for the consolidated payload, which carries
      the upper-cased code, the purchase status of the ledger total, all five
      performance keys, and a request date that is the reply's or the trade
      date. */
  lemma {:induction false} BuildSucceeds(symbol: string, rows: seq<Stock>, up: Upstream)
    requires Build(symbol, rows, up).Returned?
    ensures var resp := Build(symbol, rows, up).value;
      (resp.status == 200 <==> resp.payload.Consolidated?)
      && (resp.status == 200 ==>
            var p := resp.payload;
            p.companyCode == Upper(symbol) && IsUpperCase(p.companyCode)
            && p.companyName != [] && p.companyName == ResolveName(Upper(symbol), rows, up.tickers).name
            && p.purchasedAmount == TotalAmount(rows, Upper(symbol))
            && (p.purchasedStatus == Purchased <==> p.purchasedAmount > 0.0)
            && var o := RecentOhlc(Upper(symbol), ReferenceDate(up.today, up.minute), up.daily);
               var scrap := Scrape(up.pages(PageUrl(Upper(symbol))));
               o.OhlcOk? && scrap.Returned?
               && (p.requestDate.ReplyDate? <==> o.date.Some? && o.date.value != [])
               && (p.requestDate.ReplyDate? ==> o.date == Some(p.requestDate.text))
               && (p.requestDate.TradeDateIso? ==> p.requestDate.day == ReferenceDate(up.today, up.minute))
               && p.stockValues == StockValues(o.open, o.high, o.low, o.close)
               && p.performanceData == PerformanceData(scrap.value.performance)
               && p.performanceData.Keys == AllPerfKeys
               && p.competitors == scrap.value.competitors)
      && (resp.status != 200 ==> resp.status in {400, 503})
  {
    UpperIsIdempotent(symbol);
  }

  /** A stored name means the ticker lookup is never consulted. */
  lemma {:induction false} StoredNameSkipsLookup(symbol: string, rows: seq<Stock>, up: Upstream, other: TickerQuery -> TickerReply)
    requires LatestCompanyName(rows, Upper(symbol)).Some?
    ensures Build(symbol, rows, up) == Build(symbol, rows, up.(tickers := other))
    ensures Build(symbol, rows, up).Returned? && Build(symbol, rows, up).value.status == 200
        ==> Build(symbol, rows, up).value.payload.companyName == LatestCompanyName(rows, Upper(symbol)).value
  {
  }

  /** Without a stored name, a failed lookup gives 503 and a lookup without a
      name gives 400. */
  lemma {:induction false} LookupFailures(symbol: string, rows: seq<Stock>, up: Upstream)
    requires LatestCompanyName(rows, Upper(symbol)).None?
    ensures GetCompanyInfo(Upper(symbol), up.tickers).Unavailable?
        ==> Build(symbol, rows, up) == Returned(Response(ErrorPayload(ServiceUnavailable), 503))
    ensures GetCompanyInfo(Upper(symbol), up.tickers).NoName?
        ==> Build(symbol, rows, up) == Returned(Response(ErrorPayload(InvalidTicker), 400))
  {
  }

  /** When none of the five dates has data, the result is 503, whatever the
      scraper would say. */
  lemma {:induction false} NoOhlcGives503(symbol: string, rows: seq<Stock>, up: Upstream)
    requires ResolveName(Upper(symbol), rows, up.tickers).Named?
    requires forall k :: 0 <= k < OhlcAttempts ==> !FoundAt(Upper(symbol), ReferenceDate(up.today, up.minute), up.daily, k)
    ensures Build(symbol, rows, up) == Returned(Response(ErrorPayload(NoRecentOhlc), 503))
  {
    RecentOhlcIsFirstFound(Upper(symbol), ReferenceDate(up.today, up.minute), up.daily);
  }

  /** An error escapes `build_payload` only from the scraper. */
  lemma {:induction false} BuildRaisesOnlyFromScraper(symbol: string, rows: seq<Stock>, up: Upstream)
    requires Build(symbol, rows, up).Raised?
    ensures Scrape(up.pages(PageUrl(Upper(symbol)))) == Raised(Build(symbol, rows, up).error)
  {
  }

  // ---------------------------------------------------------------------
  // The result cache

  /** Only consolidated payloads are ever stored. */
  predicate OnlySuccesses(entries: map<string, Payload>)
  {
    forall key :: key in entries ==> entries[key].Consolidated?
  }

  /** What `get_payload_cached(symbol)` answers: the stored payload with 200
      on a hit, else what `build_payload` gives. */
  function CachedLookup(entries: map<string, Payload>, symbol: string, rows: seq<Stock>, up: Upstream): Outcome<Response>
  {
    var key := CacheKey(symbol);
    if key in entries then Returned(Response(entries[key], 200)) else Build(symbol, rows, up)
  }

  /** The cache after `get_payload_cached(symbol)`: a miss stores the payload
      only when its status is 200. */
  function CacheAfter(entries: map<string, Payload>, symbol: string, rows: seq<Stock>, up: Upstream): map<string, Payload>
  {
    var key := CacheKey(symbol);
    if key in entries then entries
    else
      var built := Build(symbol, rows, up);
      if built.Returned? && built.value.status == 200 then entries[key := built.value.payload] else entries
  }

  /** The cache after `bust_cache(symbol)`. */
  function Busted(entries: map<string, Payload>, symbol: string): map<string, Payload>
  {
    entries - {CacheKey(symbol)}
  }

  /** Lookups keep error payloads out of the cache. */
  lemma {:induction false} CacheAfterOnlySuccesses(entries: map<string, Payload>, symbol: string, rows: seq<Stock>, up: Upstream)
    requires OnlySuccesses(entries)
    ensures OnlySuccesses(CacheAfter(entries, symbol, rows, up))
    ensures CacheAfter(entries, symbol, rows, up).Keys <= entries.Keys + {CacheKey(symbol)}
  {
    var built := Build(symbol, rows, up);
    if CacheKey(symbol) !in entries && built.Returned? {
      BuildSucceeds(symbol, rows, up);
    }
  }

  /** After a lookup that answered 200, the same lookup hits and answers the
      same, however the ledger and the upstream have changed since. */
  lemma {:induction false} SecondLookupHits(entries: map<string, Payload>, symbol: string, rows: seq<Stock>, up: Upstream,
                                            rows': seq<Stock>, up': Upstream)
    requires CachedLookup(entries, symbol, rows, up).Returned?
    requires CachedLookup(entries, symbol, rows, up).value.status == 200
    ensures CachedLookup(CacheAfter(entries, symbol, rows, up), symbol, rows', up') == CachedLookup(entries, symbol, rows, up)
  {
  }

  /** A lookup that is not a 200 leaves the cache as it was. */
  lemma {:induction false} ErrorsAreNotCached(entries: map<string, Payload>, symbol: string, rows: seq<Stock>, up: Upstream)
    requires !(CachedLookup(entries, symbol, rows, up).Returned? && CachedLookup(entries, symbol, rows, up).value.status == 200)
    ensures CacheAfter(entries, symbol, rows, up) == entries
  {
  }

  /** Busting removes only the symbol's entry, is idempotent, and makes the
      next lookup rebuild. */
  lemma {:induction false} BustRemovesOnlyItsKey(entries: map<string, Payload>, symbol: string, rows: seq<Stock>, up: Upstream)
    ensures CacheKey(symbol) !in Busted(entries, symbol)
    ensures forall key :: key in entries && key != CacheKey(symbol) ==> key in Busted(entries, symbol) && Busted(entries, symbol)[key] == entries[key]
    ensures Busted(Busted(entries, symbol), symbol) == Busted(entries, symbol)
    ensures CachedLookup(Busted(entries, symbol), symbol, rows, up) == Build(symbol, rows, up)
  {
  }

  /** The process-wide cache. Expiry (the TTL) is not modelled: an entry
      stays until it is busted. */
  class ResultCache {
    var entries: map<string, Payload>

    constructor ()
      ensures entries == map[]
    {
      entries := map[];
    }

    /** `get_payload_cached(symbol)`. */
    method GetPayloadCached(symbol: string, ledger: StockTable, up: Upstream) returns (r: Outcome<Response>)
      modifies this
      ensures r == CachedLookup(old(entries), symbol, ledger.rows, up)
      ensures entries == CacheAfter(old(entries), symbol, ledger.rows, up)
    {
      var key := CacheKey(symbol);
      if key in entries {
        return Returned(Response(entries[key], 200));
      }
      r := BuildPayload(symbol, ledger, up);
      if r.Returned? && r.value.status == 200 {
        entries := entries[key := r.value.payload];
      }
    }

    /** `bust_cache(symbol)`. */
    method BustCache(symbol: string)
      modifies this
      ensures entries == Busted(old(entries), symbol)
    {
      entries := entries - {CacheKey(symbol)};
    }
  }
}
