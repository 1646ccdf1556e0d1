# Stock API core, modelled in Dafny

This project models the service layer of a small Django stock API:

- **Ledger.** The `Stock` table of purchases: `models.dfy`, module `Models`.
- **Polygon.io client.** `polygon_client.dfy`, module `PolygonClient`. It covers:
  - the reference trading date;
  - the classification of the ticker-metadata reply;
  - the classification of the daily open/close reply.
- **MarketWatch scraper.** `marketwatch_scraper.dfy`, module `MarketwatchScraper`. It covers:
  - the percentage parser;
  - the market-capitalisation parser;
  - the anti-bot check;
  - the two row-folding loops of `get_scrapping_data`.
- **Stock service.** `stock_service.dfy`, module `StockService`. It covers:
  - the cache key;
  - the ledger total and the stored company name;
  - the bounded OHLC retry loop;
  - `build_payload`;
  - the read-through result cache and `bust_cache`.
- **The view.** `views.dfy`, module `Views`. `StockView.post` validates and records a purchase. `StockView.get` hands the cached payload through.

Shared value types live in `values.dfy`:

- `Option`;
- `Outcome`, which is a value or an exception that escapes;
- `Dec`, an exact decimal that stands in for Python floats and Decimals.

Python's string operations live in `text.dfy`: whitespace classes, `upper`/`lower`, `strip`, `split`/`join`, `replace` and `in`.

## How I/O is modelled

Every outside effect is a parameter:

- **HTTP round trips.** Each is a function from the request the code sends to the reply it decodes: `TickerQuery -> TickerReply`, `DailyQuery -> DailyReply`, and the page fetch `string -> PageFetch`.
- **The clock.** It is the local date, as a proleptic ordinal, plus the minutes since midnight that the time-zone conversion yields.
- **HTML navigation.** A fetched page is its raw text plus the cell texts of the rows that the navigation selects.

The ledger and the cache are objects whose fields are updated in place:

- `StockTable.rows` is a `seq<Stock>` in primary-key order;
- `ResultCache.entries` is a `map<string, Payload>`.

Each method is proved against a specification function, and the lemmas about those functions state what the code promises.

The code is followed wherever it does something other than what its own comments say:

- **The stored company name is the earliest, not the latest.** The docstring of `_latest_company_name` (`stocks/services/stock_service.py:26`) promises the most recent non-empty name. The query uses `.first()` with no ordering, so it returns the **earliest** one. See `StockService.LatestCompanyNameKeepsFirst`.
- **The scraper can raise.** The docstring of `build_payload` (`stocks/services/stock_service.py:46`) says upstream hiccups degrade to None fields instead of raising, and the comment at `stocks/services/stock_service.py:97` calls the scrape non-critical. It still raises in two cases:
  - an exception from the page fetch;
  - a `float()` error on a market-cap number such as `1.2.3`, which the regex accepts.

  Both escape through `build_payload` and `get_payload_cached`; see `MarketwatchScraper.ParseMarketCapTwoPointsExample` and `StockService.BuildRaisesOnlyFromScraper`.
- **An unreachable provider does not give the view's 503.** The view's 503 branch only catches an exception from `get_company_info`. The real client returns `None` on failure, and `info.get` then raises `AttributeError`. See `Views.RealClientOutageEscapes`.
- **`request_date` falls back to the trade date.** When the reply has no `date`, `request_date` is the trade date, not the date whose data was actually used.
- **The view's ledger lookup accepts an empty name.** It takes the first row for the code even when its name is empty. An empty name then triggers the upstream lookup.

## Model

| member | source | states |
|---|---|---|
| PolygonClient.LastTradingDay | stocks/services/polygon_client.py:18-40 | The weekend loop and the pre-cutoff step give the reference date. The result is a weekday at most three days back. |
| PolygonClient.WeekendGivesPrecedingFriday | stocks/services/polygon_client.py:30-32 | A Saturday or Sunday gives the Friday just before it, at any time. |
| PolygonClient.ClosedSessionKeepsToday | stocks/services/polygon_client.py:34-36 | A weekday at or after 16:10 is its own reference date. |
| PolygonClient.OpenSessionGivesPreviousWeekday | stocks/services/polygon_client.py:34-39 | A weekday before 16:10 gives the latest earlier weekday. Monday gives the Friday before it. |
| PolygonClient.ReferenceDateExamples | stocks/tests/test_polygon.py:16-38 | The test cases: Wednesday after and before the cutoff, Saturday, Sunday. |
| PolygonClient.WeekdayOnOrBeforeIsLatest | stocks/services/polygon_client.py:31-32 | The weekend loop stops at the latest weekday on or before its start. |
| PolygonClient.ClassifyTickerReply | stocks/services/polygon_client.py:57-71 | None exactly when the round trip fails. `{"name": n}` exactly when the first result has a non-empty name. `{}` otherwise. |
| PolygonClient.GetCompanyInfo | stocks/services/polygon_client.py:42-71 | None exactly when the round trip for the upper-cased ticker fails. A name is never empty. |
| PolygonClient.CompanyInfoIgnoresCase | stocks/services/polygon_client.py:52-55 | The ticker is sent upper-cased, so the answer ignores the symbol's case. |
| PolygonClient.ClassifyDailyReply | stocks/services/polygon_client.py:85-107 | "Invalid Date" exactly for a present, non-empty, non-"OK" status. "ERROR" for transport failures or a price `float()` rejects. Otherwise OK, with each price None exactly when it is absent. |
| PolygonClient.GetDailyData | stocks/services/polygon_client.py:73-107 | "Invalid Date" exactly when a decoded reply for the upper-cased ticker carries a rejecting status. A failed round trip gives "ERROR" with its message. An OK answer carries the reply's `from` date and symbol. |
| PolygonClient.DailyDataIgnoresCase | stocks/services/polygon_client.py:82 | The ticker in the path is upper-cased, so symbols that differ only in case get the same answer. |
| PolygonClient.MissingStatusIsOk | stocks/services/polygon_client.py:90-101 | A body with no status or status "OK" whose prices convert is OK. |
| MarketwatchScraper.PctToFloat | stocks/services/marketwatch_scraper.py:32-40 | None, "" and any text without `%` give None. |
| MarketwatchScraper.PctMatchHereExact | stocks/services/marketwatch_scraper.py:37 | The matcher succeeds at a position exactly when a token `[+-]?\d+(?:[.,]\d+)?\s*%` starts there, and it then reads that token's signed number. |
| MarketwatchScraper.PctSearchIsLeftmost | stocks/services/marketwatch_scraper.py:37-39 | The search finds nothing exactly when no token starts at any position. Otherwise it gives the reading at the leftmost position where a token starts. |
| MarketwatchScraper.PctSearchFrom | stocks/services/marketwatch_scraper.py:37 | Positions where the pattern does not match can be skipped: the search gives the same result from the first position that might match. |
| MarketwatchScraper.PctToFloatReadsFirstNumber | stocks/services/marketwatch_scraper.py:36-40 | Take a text with no match starting before a signed number that is followed by optional whitespace and `%`. The result is that number. U+2212 counts as a minus, and a comma counts as a decimal point. |
| MarketwatchScraper.PctToFloatSkipsEarlierNumber | stocks/services/marketwatch_scraper.py:37-40 | "5 x+1.2%" gives 1.2: a number without `%` after it is skipped. |
| MarketwatchScraper.PctToFloatTestValues | stocks/tests/test_scrapper.py:10-19 | "+3.25%" gives 3.25, "0 %" gives 0, and "n/a", "" and None give None. |
| MarketwatchScraper.PctToFloatUnicodeMinus | stocks/services/marketwatch_scraper.py:36 | A number written with U+2212 reads as negative. |
| MarketwatchScraper.PctToFloatLeftmostMatch | stocks/services/marketwatch_scraper.py:37 | `re.search` takes the leftmost match: "1.2.3%" gives 2.3. |
| MarketwatchScraper.PctMatchBodyNeedsPercent | stocks/services/marketwatch_scraper.py:37 | A number not followed by spaces and `%` does not match at that position. |
| MarketwatchScraper.ParseMarketCapPlaceholder | stocks/services/marketwatch_scraper.py:49-50 | An empty text, or one that strips to `—`, `-` or `N/A`, gives (None, None). |
| MarketwatchScraper.ParseMarketCapPlaceholderExamples | stocks/tests/test_scrapper.py:27-29 | "N/A", "" and "—" give (None, None). |
| MarketwatchScraper.ParseMarketCap | stocks/services/marketwatch_scraper.py:42-63 | The parse as the code performs it. What it gives is stated by the lemmas in the following rows. |
| MarketwatchScraper.MarketCapMatchExact | stocks/services/marketwatch_scraper.py:53 | The matcher succeeds exactly on the texts that are a currency run, a number, spaces and an optional suffix, as the regex reads them. |
| MarketwatchScraper.ParseMarketCapGivesNothing | stocks/services/marketwatch_scraper.py:49-55 | (None, None) exactly for an empty text, a placeholder, or a stripped text that the regex does not match. A raise needs a text that the regex matches. |
| MarketwatchScraper.ParseMarketCapReads | stocks/services/marketwatch_scraper.py:52-63 | A currency prefix, number, spaces and optional suffix match the regex with exactly those groups. The result has the stripped prefix as currency, or None when blank. The value is the number, commas removed, times the suffix's power of ten. |
| MarketwatchScraper.ParseMarketCapPointed | stocks/services/marketwatch_scraper.py:57-63 | Digits, a point and digits under a suffix give that decimal times 10^3, 10^6, 10^9 or 10^12. |
| MarketwatchScraper.ParseMarketCapGrouped | stocks/services/marketwatch_scraper.py:57-63 | Thousands separators are dropped: digits, a comma and digits read as the joined digits, times the suffix's power of ten. |
| MarketwatchScraper.PointedValue | stocks/services/marketwatch_scraper.py:52-63 | A currency run, digits, a point, digits and a suffix letter give the currency and the digits, scaled by the fraction's length and the suffix. |
| MarketwatchScraper.DollarTrillions | stocks/services/marketwatch_scraper.py:44 | "$3.75T" gives ("$", 3.75e12). |
| MarketwatchScraper.UsDollarTrillions | stocks/services/marketwatch_scraper.py:45 | "US$ 2.37T" gives ("US$", 2.37e12): the space before the number is stripped from the currency. |
| MarketwatchScraper.WonTrillions | stocks/services/marketwatch_scraper.py:46 | "₩465.45T" gives ("₩", 4.6545e14). |
| MarketwatchScraper.EuroBillions | stocks/services/marketwatch_scraper.py:47 | "€512.3B" gives ("€", 5.123e11). |
| MarketwatchScraper.ParseMarketCapTwoPointsRaises | stocks/services/marketwatch_scraper.py:53-58 | A number with two points matches the regex, and `float()` then raises rather than giving (None, None). |
| MarketwatchScraper.ParseMarketCapTwoPointsExample | stocks/services/marketwatch_scraper.py:58 | "1.2.3B" raises "could not convert string to float: '1.2.3'". |
| MarketwatchScraper.MarketCapMatchOf | stocks/services/marketwatch_scraper.py:53 | The greedy reading of the regex returns exactly the given groups. |
| MarketwatchScraper.SuffixIgnoresCase | stocks/services/marketwatch_scraper.py:59-61 | A lower-case suffix scales like its upper-case letter. No suffix means a factor of one. |
| MarketwatchScraper.KelvinSignScalesByOne | stocks/services/marketwatch_scraper.py:53-61 | Under `re.I` the Kelvin sign matches `K`, but its `upper()` misses the table, so it scales by one. |
| MarketwatchScraper.ParseFloatPointed | stocks/services/marketwatch_scraper.py:58 | `float()` of digits, a point and digits, where either side may be empty but not both. |
| MarketwatchScraper.ParseFloatTwoPoints | stocks/services/marketwatch_scraper.py:58 | `float()` raises on two decimal points. |
| MarketwatchScraper.ParseFloatNeedsDigit | stocks/services/marketwatch_scraper.py:58 | `float()` raises on a text of points only. |
| MarketwatchScraper.RemoveCommasConcat | stocks/services/marketwatch_scraper.py:58 | Removing commas distributes over concatenation. |
| MarketwatchScraper.StripTrailingSpaces | stocks/services/marketwatch_scraper.py:57 | Spaces after a currency are stripped from it. |
| MarketwatchScraper.SingleCurrency | stocks/services/marketwatch_scraper.py:57 | A one-character currency that is not a space is kept as it is. |
| MarketwatchScraper.GetScrappingData | stocks/services/marketwatch_scraper.py:65-133 | The fetch, the anti-bot check, the performance loop and the competitor loop give `Scrape` of the page at the lower-cased symbol's URL. |
| MarketwatchScraper.BotWallGivesDefaults | stocks/services/marketwatch_scraper.py:70-79 | Any of the three markers gives all five performance keys as None and no competitors. |
| MarketwatchScraper.MissingSectionsGiveDefaults | stocks/tests/test_scrapper.py:52-60 | A page with no tables gives the same defaults. |
| MarketwatchScraper.KeyForLabel | stocks/services/marketwatch_scraper.py:8-14 | Only the five labels map to a key. |
| MarketwatchScraper.PerformanceKeys | stocks/services/marketwatch_scraper.py:90-104 | The loop keeps exactly the five keys. |
| MarketwatchScraper.UnsetKeyStaysNone | stocks/services/marketwatch_scraper.py:92-101 | A key that no row sets stays None. Rows with fewer than two cells, or with unknown labels, set nothing. |
| MarketwatchScraper.LastLabelledRowWins | stocks/services/marketwatch_scraper.py:97-104 | A key holds the percentage of the last row labelled with it. |
| MarketwatchScraper.CompetitorsInTableOrder | stocks/services/marketwatch_scraper.py:119-131 | When nothing raises, there is one competitor per row with a non-empty first cell, in table order. Entry k is exactly what the k-th such row gives on its own. |
| MarketwatchScraper.RowEntry | stocks/services/marketwatch_scraper.py:122-128 | A row's entry is its first cell as the name, with the market cap parsed from the row's last cell. |
| MarketwatchScraper.RaisingRowRaises | stocks/services/marketwatch_scraper.py:124-125 | The first row whose market cap raises makes the scrape raise with its error. |
| MarketwatchScraper.RaiseEndsLoop | stocks/services/marketwatch_scraper.py:119-131 | Once the loop raises, later rows change nothing. |
| MarketwatchScraper.ShortRowHasNoMarketCap | stocks/services/marketwatch_scraper.py:123-124 | A named row with fewer than three cells has market cap (None, None). |
| Models.StockTable.Create | stocks/views.py:72 | Exactly one row is appended after all the others. |
| StockService.CacheKey | stocks/services/stock_service.py:20-21 | The key is `stock:` followed by exactly `Upper(symbol)`, which has no lower-case letter. |
| StockService.CacheKeyIgnoresCase | stocks/services/stock_service.py:20-21 | Two symbols share a key exactly when they upper-case alike. |
| StockService.CacheKeyOfUpper | stocks/services/stock_service.py:20-21 | The key of an upper-cased symbol is the symbol's key. |
| StockService.TotalAmount | stocks/services/stock_service.py:52-56 | With only positive amounts for the code, the total is never negative. |
| StockService.TotalAmountAppend | stocks/services/stock_service.py:52-56 | A new row adds its amount to its own code's total only. |
| StockService.TotalAmountOfNoRows | stocks/services/stock_service.py:52-56 | With no rows for the code the total is 0. |
| StockService.PurchasedStatus | stocks/services/stock_service.py:57 | "purchased" exactly when the total is positive, else "none". |
| StockService.LatestCompanyName | stocks/services/stock_service.py:24-35 | A name found is never empty. |
| StockService.LatestCompanyNameIsEarliest | stocks/services/stock_service.py:24-35 | The name is that of the first row with the code and a non-empty name. |
| StockService.LatestCompanyNameAbsent | stocks/services/stock_service.py:24-35 | No such row gives None. |
| StockService.LatestCompanyNameKeepsFirst | stocks/services/stock_service.py:28-35 | A later purchase never changes a name already found. |
| StockService.AttemptDateStep | stocks/services/stock_service.py:84-86 | Each later attempt is a weekday strictly earlier than, and at most three days before, the previous one. |
| StockService.AttemptsStopAtFirstOk | stocks/services/stock_service.py:80-84 | The attempts before the last found nothing. The last attempt found data or was the fifth. |
| StockService.RecentOhlcIsFirstFound | stocks/services/stock_service.py:78-87 | The loop gives data exactly when one of the five dates has it, and stops at the first such date. |
| StockService.FetchRecentOhlc | stocks/services/stock_service.py:78-86 | The loop asks for the trade date first, then for each previous weekday, and stops as specified. It returns the last answer. |
| StockService.BuildPayload | stocks/services/stock_service.py:38-123 | The steps give `Build` of the symbol, the ledger and the upstream answers. |
| StockService.Build | stocks/services/stock_service.py:38-123 | `build_payload` as a function of the symbol, the ledger and the upstream answers. What it gives is stated by `BuildSucceeds` and the lemmas after it. |
| StockService.BuildSucceeds | stocks/services/stock_service.py:59-123 | Status 200 exactly for the consolidated payload. That payload carries:<br>- the upper-cased code and the resolved, non-empty name;<br>- the ledger total and its purchase status;<br>- the reply's date when it has a non-empty one, else the trade date;<br>- the open, high, low and close of the first OK daily answer;<br>- the scrape's five performance keys and its competitors.<br>Any other status is 400 or 503. |
| StockService.PerformanceData | stocks/services/stock_service.py:115-121 | Exactly the five keys, with missing ones None. |
| StockService.StoredNameSkipsLookup | stocks/services/stock_service.py:59-61 | A stored name makes the result independent of the ticker lookup. |
| StockService.LookupFailures | stocks/services/stock_service.py:61-72 | An unavailable lookup gives 503 and a missing name gives 400, each with its message. |
| StockService.NoOhlcGives503 | stocks/services/stock_service.py:87-95 | No data on any of the five dates gives 503 "could not retrieve recent OHLC data". |
| StockService.BuildRaisesOnlyFromScraper | stocks/services/stock_service.py:98 | An exception escapes only from the scraper. |
| StockService.CacheAfterOnlySuccesses | stocks/services/stock_service.py:136-139 | Lookups store only consolidated payloads, under the symbol's key. |
| StockService.SecondLookupHits | stocks/services/stock_service.py:131-139 | After a 200 answer, the same lookup hits and answers the same. |
| StockService.ErrorsAreNotCached | stocks/services/stock_service.py:136-139 | A non-200 answer leaves the cache unchanged. |
| StockService.BustRemovesOnlyItsKey | stocks/services/stock_service.py:143-147 | Busting removes only the symbol's key and is idempotent. The next lookup rebuilds. |
| StockService.ResultCache.GetPayloadCached | stocks/services/stock_service.py:126-139 | A hit returns the entry with 200. A miss builds, and stores the result on 200. |
| StockService.ResultCache.BustCache | stocks/services/stock_service.py:143-147 | The entry for the symbol's key is removed. |
| Views.FirstCompanyName | stocks/views.py:57 | The name of the first row with the code (no earlier row has it), even if empty. None exactly when no row has the code. |
| Views.PostDecision | stocks/views.py:41-78 | The reply and the row `StockView.post` decides on. What it decides is stated by `OnlySuccessAppends` and the lemmas around it. |
| Views.EmptyFirstNameConsultsLookup | stocks/views.py:57-60 | When the first row for the code has an empty name, the answer is the same as with no row at all, so the lookup decides. |
| Views.LaterNameIgnored | stocks/views.py:57-60 | With rows ("AAPL", "") and ("AAPL", "Apple"), "Apple" is not used and the lookup is consulted. |
| Views.Post | stocks/views.py:26-78 | The reply is `PostDecision`'s. The ledger grows by the decided row, if any. The cache is busted exactly when a row is appended. |
| Views.Get | stocks/views.py:15-24 | The cached service's answer and cache update, unchanged. |
| Views.AmountCheckedFirst | stocks/views.py:44-53 | A missing amount, a non-numeric or NaN amount, and an amount of 0 or less each give 400 with their message. Nothing is appended, whatever the ledger and lookup. |
| Views.StoredNameSkipsLookup | stocks/views.py:57-60 | A stored non-empty name means the lookup is not consulted, and the row carries that name. |
| Views.LookupFailures | stocks/views.py:60-69 | A raising lookup gives 503. A lookup without a name gives 400. |
| Views.RealClientOutageEscapes | stocks/views.py:60-66 | With the real client, an unreachable provider makes `info.get` raise and nothing is appended. |
| Views.OnlySuccessAppends | stocks/views.py:71-78 | A row is appended exactly on 201. That row has the upper-cased code, a non-empty name and the positive amount. |
| Views.PostThenGet | stocks/views.py:72-75 | After a successful POST the next GET misses the cache and rebuilds. The code's total has grown by the amount. |
| Values.ShiftLeftScales | stocks/services/marketwatch_scraper.py:61 | Scaling by a suffix multiplies the value by the power of ten. |
| Values.PositiveValue | stocks/views.py:50 | The `> 0` test on an exact decimal is the sign of its mantissa. |
| Text.DigitsValueAppend | stocks/services/marketwatch_scraper.py:40 | Reading digits a + b is reading a shifted by the length of b, plus b. |
| Text.UpperIsIdempotent | stocks/services/stock_service.py:48 | An upper-cased code has no lower-case letter and upper-cases to itself. |

## Left out

- HTTP transport: URLs, headers, API keys, cookies and timeouts. The replies are parameters, and so is any exception on the way.
- The clock and the New York time-zone conversion. The local date and minute are inputs.
- Python `date` bounds: `date.min` overflow when stepping back is not modelled, because dates are unbounded integers.
- `isoformat` and `strftime`. The trade date of `request_date` is kept as a date, not as text.
- BeautifulSoup navigation: finding the performance box and the competitor table, and `get_text`. The page gives the cell texts of the selected rows. A missing section gives no rows.
- Floating point. Every float is an exact decimal, so `math.isclose` is equality here. The documented market-cap values are stated as exact decimals (`MarketwatchScraper.DocumentedValues` gives their real values).
- Character classes beyond ASCII:
  - `\d` and `float()` accept only ASCII digits here. Other Unicode decimal digits are not modelled.
  - `upper()` and `lower()` change only ASCII letters. For the `datadome` check this is exact, since no other character lower-cases to one of its letters.
- `Decimal(str(raw))` is an input: not a number, NaN, or a decimal. Infinities are not modelled.
- `DecimalField(max_digits=18, decimal_places=2)` rounding on save, database collation, and storage faults. The ledger compares codes exactly and keeps amounts as given.
- The cache TTL: entries never expire. Concurrent requests are not modelled either.
- Logging. The text of the 201 confirmation message: the body records its amount and symbol.
- `Views.Post`: the exception that escapes when the client answers None is modelled as an error outcome. The 500 response Django then produces is not modelled.
- `MarketwatchScraper.GetScrappingData`: the two `requests.get` failure modes are one `FetchRaised` outcome.
