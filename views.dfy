/** The HTTP view: GET hands the cached payload through, POST validates an
    amount, resolves the company name, appends a ledger row and busts the
    cache. */
module Views {
  import opened Values
  import opened Text
  import opened Models
  import opened PolygonClient
  import opened StockService

  /** `Decimal(str(raw))` and the `<= 0` test on it: a text Decimal refuses,
      a NaN (any comparison with it raises InvalidOperation), or a number. */
  datatype DecimalConversion = NotNumeric | NotANumber | Numeric(value: Dec)

  /** `request.data.get("amount")`: absent (or null), or given. */
  datatype AmountField = AmountMissing | AmountGiven(conversion: DecimalConversion)

  /** What `PolygonClient().get_company_info(symbol)` does in the view: raise,
      or return one of its three answers. */
  datatype InfoCall = InfoRaised(error: string) | InfoReturned(info: CompanyInfo)

  /** The body of a POST response: an `{"error": ...}` dictionary, or the
      confirmation text for an amount and a symbol. */
  datatype PostBody = ErrorBody(error: string) | AddedMessage(amount: Dec, symbol: string)

  datatype PostReply = PostReply(body: PostBody, status: int)

  /** What a POST answers (or the exception that escapes it, a 500) and the
      ledger row it appends, if any. */
  datatype PostEffect = PostEffect(reply: Outcome<PostReply>, record: Option<Stock>)

  const AmountRequired := "amount is required"
  const AmountNotNumber := "amount must be a number"
  const AmountNotPositive := "amount must be > 0"
  const UpstreamUnavailable := "upstream provider unavailable"
  /** The AttributeError `info.get` raises when the lookup returned None. */
  const NoneHasNoGet := "'NoneType' object has no attribute 'get'"

  /** The view's name lookup: the name of the first row with the code, in
      primary-key order, even when that name is empty. */
  function FirstCompanyName(rows: seq<Stock>, code: string): (name: Option<string>)
    ensures name.Some? ==> exists i :: 0 <= i < |rows| && rows[i].companyCode == code && rows[i].companyName == name.value
                                     && forall j :: 0 <= j < i ==> rows[j].companyCode != code
    ensures name.None? <==> forall i :: 0 <= i < |rows| ==> rows[i].companyCode != code
  {
    if rows == [] then None
    else if rows[0].companyCode == code then Some(rows[0].companyName)
    else
      var rest := FirstCompanyName(rows[1..], code);
      assert forall i :: 1 <= i < |rows| ==> rows[i] == rows[1..][i - 1];
      rest
  }

  function Rejected(error: string, status: int): PostEffect
  {
    PostEffect(Returned(PostReply(ErrorBody(error), status)), None)
  }

  function Accepted(code: string, name: string, amount: Dec): PostEffect
  {
    PostEffect(Returned(PostReply(AddedMessage(amount, code), 201)), Some(Stock(code, name, amount)))
  }

  /** `StockView.post(symbol)` against the ledger rows and the lookup. */
  function PostDecision(symbol: string, amount: AmountField, rows: seq<Stock>, lookup: string -> InfoCall): PostEffect
  {
    var code := Upper(symbol);
    match amount
    case AmountMissing => Rejected(AmountRequired, 400)
    case AmountGiven(NotNumeric) => Rejected(AmountNotNumber, 400)
    case AmountGiven(NotANumber) => Rejected(AmountNotNumber, 400)
    case AmountGiven(Numeric(a)) =>
      if Value(a) <= 0.0 then Rejected(AmountNotPositive, 400)
      else
        var stored := FirstCompanyName(rows, code);
        if stored.Some? && stored.value != [] then Accepted(code, stored.value, a)
        else
          match lookup(code)
          case InfoRaised(_) => Rejected(UpstreamUnavailable, 503)
          case InfoReturned(Unavailable) => PostEffect(Raised(NoneHasNoGet), None)
          case InfoReturned(info) =>
            if info.Named? && info.name != [] then Accepted(code, info.name, a)
            else Rejected(InvalidTicker, 400)
  }

  /** The rows a POST appends. */
  function Appended(record: Option<Stock>): seq<Stock>
  {
    if record.Some? then [record.value] else []
  }

  /** `StockView.post(symbol)`. */
  method Post(symbol: string, amount: AmountField, lookup: string -> InfoCall, ledger: StockTable, cache: ResultCache)
      returns (r: Outcome<PostReply>)
    modifies ledger, cache
    ensures r == PostDecision(symbol, amount, old(ledger.rows), lookup).reply
    ensures ledger.rows == old(ledger.rows) + Appended(PostDecision(symbol, amount, old(ledger.rows), lookup).record)
    ensures cache.entries == if PostDecision(symbol, amount, old(ledger.rows), lookup).record.Some?
      then Busted(old(cache.entries), symbol) else old(cache.entries)
  {
    var code := Upper(symbol);
    if amount.AmountMissing? {
      return Returned(PostReply(ErrorBody(AmountRequired), 400));
    }
    if !amount.conversion.Numeric? {
      return Returned(PostReply(ErrorBody(AmountNotNumber), 400));
    }
    var a := amount.conversion.value;
    if Value(a) <= 0.0 {
      return Returned(PostReply(ErrorBody(AmountNotPositive), 400));
    }
    var companyName := FirstCompanyName(ledger.rows, code);
    var name: string;
    if companyName.Some? && companyName.value != [] {
      name := companyName.value;
    } else {
      var call := lookup(code);
      if call.InfoRaised? {
        return Returned(PostReply(ErrorBody(UpstreamUnavailable), 503));
      }
      if call.info.Unavailable? {
        return Raised(NoneHasNoGet);
      }
      if call.info.NoName? || call.info.name == [] {
        return Returned(PostReply(ErrorBody(InvalidTicker), 400));
      }
      name := call.info.name;
    }
    ledger.Create(code, name, a);
    cache.BustCache(code);
    CacheKeyOfUpper(symbol);
    return Returned(PostReply(AddedMessage(a, code), 201));
  }

  /** `StockView.get(symbol)`: the cached service's payload and status, as they are. */
  method Get(symbol: string, ledger: StockTable, up: Upstream, cache: ResultCache) returns (r: Outcome<Response>)
    modifies cache
    ensures r == CachedLookup(old(cache.entries), symbol, ledger.rows, up)
    ensures cache.entries == CacheAfter(old(cache.entries), symbol, ledger.rows, up)
  {
    r := cache.GetPayloadCached(symbol, ledger, up);
  }

  /** The amount is checked first: missing, not a number, or not positive
      each give 400 with their message, append nothing, and consult neither
      the ledger nor the lookup. */
  lemma {:induction false} AmountCheckedFirst(symbol: string, amount: AmountField, rows: seq<Stock>, lookup: string -> InfoCall,
                                               rows': seq<Stock>, lookup': string -> InfoCall)
    requires !(amount.AmountGiven? && amount.conversion.Numeric? && Value(amount.conversion.value) > 0.0)
    ensures PostDecision(symbol, amount, rows, lookup) == PostDecision(symbol, amount, rows', lookup')
    ensures var e := PostDecision(symbol, amount, rows, lookup);
      e.record.None? && e.reply.Returned? && e.reply.value.status == 400
      && e.reply.value.body.error == (if amount.AmountMissing? then AmountRequired
                                      else if amount.conversion.Numeric? then AmountNotPositive
                                      else AmountNotNumber)
  {
  }

  /** A name stored for the code means the lookup is not consulted, and the
      row is recorded under that name. */
  lemma {:induction false} StoredNameSkipsLookup(symbol: string, a: Dec, rows: seq<Stock>, lookup: string -> InfoCall, lookup': string -> InfoCall)
    requires Value(a) > 0.0
    requires FirstCompanyName(rows, Upper(symbol)).Some? && FirstCompanyName(rows, Upper(symbol)).value != []
    ensures PostDecision(symbol, AmountGiven(Numeric(a)), rows, lookup) == PostDecision(symbol, AmountGiven(Numeric(a)), rows, lookup')
    ensures PostDecision(symbol, AmountGiven(Numeric(a)), rows, lookup).record
         == Some(Stock(Upper(symbol), FirstCompanyName(rows, Upper(symbol)).value, a))
  {
  }

  /** Only the first row with the code is read: when its name is empty the
      lookup decides, as with no row at all, even if a later row for the
      same code has a name. */
  lemma {:induction false} EmptyFirstNameConsultsLookup(symbol: string, amount: AmountField, rows: seq<Stock>, lookup: string -> InfoCall)
    requires rows != [] && rows[0].companyCode == Upper(symbol) && rows[0].companyName == []
    ensures PostDecision(symbol, amount, rows, lookup) == PostDecision(symbol, amount, [], lookup)
  {
  }

  /** `[("AAPL", ""), ("AAPL", "Apple")]`: the stored "Apple" is not used. */
  lemma {:induction false} LaterNameIgnored(amount: AmountField, rows: seq<Stock>, lookup: string -> InfoCall, a0: Dec, a1: Dec)
    requires rows == [Stock("AAPL", "", a0), Stock("AAPL", "Apple", a1)]
    ensures PostDecision("aapl", amount, rows, lookup) == PostDecision("aapl", amount, [], lookup)
  {
    assert Upper("aapl") == "AAPL";
    EmptyFirstNameConsultsLookup("aapl", amount, rows, lookup);
  }

  /** Without a stored name: a raising lookup gives 503, a lookup without a
      name 400, and neither appends a row. */
  lemma {:induction false} LookupFailures(symbol: string, a: Dec, rows: seq<Stock>, lookup: string -> InfoCall)
    requires Value(a) > 0.0
    requires FirstCompanyName(rows, Upper(symbol)).None? || FirstCompanyName(rows, Upper(symbol)).value == []
    ensures lookup(Upper(symbol)).InfoRaised?
        ==> PostDecision(symbol, AmountGiven(Numeric(a)), rows, lookup) == Rejected(UpstreamUnavailable, 503)
    ensures (lookup(Upper(symbol)) == InfoReturned(NoName) || lookup(Upper(symbol)) == InfoReturned(Named("")))
        ==> PostDecision(symbol, AmountGiven(Numeric(a)), rows, lookup) == Rejected(InvalidTicker, 400)
  {
  }

  /** With the real client as the lookup, an unreachable provider does not
      give the 503: the client answers None, `info.get` raises, and the
      request fails with nothing appended. */
  lemma {:induction false} RealClientOutageEscapes(symbol: string, a: Dec, rows: seq<Stock>, tickers: TickerQuery -> TickerReply, lookup: string -> InfoCall)
    requires Value(a) > 0.0
    requires FirstCompanyName(rows, Upper(symbol)).None?
    requires lookup(Upper(symbol)) == InfoReturned(GetCompanyInfo(Upper(symbol), tickers))
    requires tickers(TickerQuery(Upper(Upper(symbol)))).TickerFailed?
    ensures PostDecision(symbol, AmountGiven(Numeric(a)), rows, lookup) == PostEffect(Raised(NoneHasNoGet), None)
  {
  }

  /** Every answer other than 201 appends nothing, and 201 appends exactly one
      row: the upper-cased code, a non-empty name and the amount. */
  lemma {:induction false} OnlySuccessAppends(symbol: string, amount: AmountField, rows: seq<Stock>, lookup: string -> InfoCall)
    ensures var e := PostDecision(symbol, amount, rows, lookup);
      (e.record.Some? <==> e.reply.Returned? && e.reply.value.status == 201)
      && (e.record.Some? ==>
            e.record.value.companyCode == Upper(symbol) && IsUpperCase(e.record.value.companyCode)
            && e.record.value.companyName != []
            && amount.AmountGiven? && amount.conversion.Numeric?
            && e.record.value.amount == amount.conversion.value && Value(e.record.value.amount) > 0.0)
  {
    UpperIsIdempotent(symbol);
  }

  /** After a successful POST the next GET misses the cache and rebuilds the
      payload from a ledger whose total for the code has grown by the amount. */
  lemma {:induction false} PostThenGet(symbol: string, amount: AmountField, rows: seq<Stock>, lookup: string -> InfoCall,
                                       entries: map<string, Payload>, up: Upstream)
    requires PostDecision(symbol, amount, rows, lookup).record.Some?
    ensures var rows' := rows + Appended(PostDecision(symbol, amount, rows, lookup).record);
      CachedLookup(Busted(entries, symbol), symbol, rows', up) == Build(symbol, rows', up)
      && TotalAmount(rows', Upper(symbol)) == TotalAmount(rows, Upper(symbol)) + Value(amount.conversion.value)
  {
    var e := PostDecision(symbol, amount, rows, lookup);
    OnlySuccessAppends(symbol, amount, rows, lookup);
    var record := e.record.value;
    assert Appended(e.record) == [record];
    TotalAmountAppend(rows, record, Upper(symbol));
    BustRemovesOnlyItsKey(entries, symbol, rows + [record], up);
  }
}
