/** The script form of the price-matrix assembly: stocks, funds and ETFs are fetched class after class
    and assembled under one sub-header listing every asset. */
module ScriptPrices {
  import opened Wrappers
  import opened Errors
  import opened Seqs
  import opened Calendar
  import opened MultiIndex
  import opened Prices

  /** `get_portfolio_prices`: `endDate` defaults to `loadDay`, the date the script was loaded. */
  function GetPortfolioPrices(fetch: Fetcher, stocks: seq<string>, funds: seq<string>, etfs: seq<string>,
                              start: Day, endDate: Option<Day>, loadDay: Day): (r: Result<PriceMatrix, Error>)
    ensures Assets(stocks, funds, etfs) == [] ==> r.Failure?
    ensures r.Success? ==> |r.value.columns| == Offset(4, |Assets(stocks, funds, etfs)|)
  {
    CrossProductLength(OhlcFields, Assets(stocks, funds, etfs));
    var frames :- ScriptFrames(fetch, stocks, funds, etfs, start, EndDate(endDate, loadDay));
    BuildMultiIndexDataFrame(frames, Assets(stocks, funds, etfs), OhlcFields)
  }

  /** The sub-header: the stocks, then the funds, then the ETFs. */
  function Assets(stocks: seq<string>, funds: seq<string>, etfs: seq<string>): seq<string> {
    stocks + funds + etfs
  }

  /** The end of the requested window: the given end date, or else the load date. */
  function EndDate(endDate: Option<Day>, loadDay: Day): Day {
    if endDate.Some? then endDate.value else loadDay
  }

  /** The stock frames, then the fund frames, then the ETF frames (`[*stocks, *funds, *etfs]`). */
  function ScriptFrames(fetch: Fetcher, stocks: seq<string>, funds: seq<string>, etfs: seq<string>,
                        start: Day, end: Day): Result<seq<Ohlc>, Error>
  {
    var stockFrames :- AssetFrames(fetch, Stock, Country, stocks, start, end);
    var fundFrames :- AssetFrames(fetch, Fund, Country, funds, start, end);
    var etfFrames :- AssetFrames(fetch, Etf, Country, etfs, start, end);
    Success(stockFrames + fundFrames + etfFrames)
  }

  /** The class whose call fetches asset j of `stocks + funds + etfs`. */
  function KindAt(stocks: seq<string>, funds: seq<string>, j: nat): Kind {
    if j < |stocks| then Stock else if j < |stocks| + |funds| then Fund else Etf
  }

  /** Every request of the class returns an OHLC frame. */
  predicate Serves(fetch: Fetcher, kind: Kind, assets: seq<string>, start: Day, end: Day) {
    forall k :: 0 <= k < |assets| ==>
      fetch(kind, assets[k], Country, start, end).Some? && IsOhlc(fetch(kind, assets[k], Country, start, end).value)
  }

  /** The concatenated frames line up with the concatenated names: frame j is the one fetched for
      asset j, with that asset's class. */
  lemma {:induction false} FramesFollowAssets(fetch: Fetcher, stocks: seq<string>, funds: seq<string>, etfs: seq<string>,
                                              start: Day, end: Day)
    requires Serves(fetch, Stock, stocks, start, end) && Serves(fetch, Fund, funds, start, end)
    requires Serves(fetch, Etf, etfs, start, end)
    ensures ScriptFrames(fetch, stocks, funds, etfs, start, end).Success?
    ensures var frames := ScriptFrames(fetch, stocks, funds, etfs, start, end).value;
      var assets := stocks + funds + etfs;
      |frames| == |assets| &&
      forall j :: 0 <= j < |assets| ==> frames[j] == fetch(KindAt(stocks, funds, j), assets[j], Country, start, end).value
  {
    AssetFramesCorrect(fetch, Stock, Country, stocks, start, end);
    AssetFramesCorrect(fetch, Fund, Country, funds, start, end);
    AssetFramesCorrect(fetch, Etf, Country, etfs, start, end);
    var s := AssetFrames(fetch, Stock, Country, stocks, start, end).value;
    var f := AssetFrames(fetch, Fund, Country, funds, start, end).value;
    var e := AssetFrames(fetch, Etf, Country, etfs, start, end).value;
    var assets := stocks + funds + etfs;
    forall j | 0 <= j < |assets|
      ensures (s + f + e)[j] == fetch(KindAt(stocks, funds, j), assets[j], Country, start, end).value
    {
      if j < |stocks| {
        assert assets[j] == stocks[j];
      } else if j < |stocks| + |funds| {
        assert assets[j] == funds[j - |stocks|];
      } else {
        assert assets[j] == etfs[j - |stocks| - |funds|];
      }
    }
  }

  /** Every request answered by an OHLC frame: so is every frame of the concatenation, and frame j is
      asset j's. */
  lemma ScriptFramesOhlc(fetch: Fetcher, stocks: seq<string>, funds: seq<string>, etfs: seq<string>,
                         start: Day, end: Day, j: nat)
    requires Serves(fetch, Stock, stocks, start, end) && Serves(fetch, Fund, funds, start, end)
    requires Serves(fetch, Etf, etfs, start, end)
    requires j < |stocks + funds + etfs|
    ensures ScriptFrames(fetch, stocks, funds, etfs, start, end).Success?
    ensures |ScriptFrames(fetch, stocks, funds, etfs, start, end).value| == |stocks + funds + etfs|
    ensures forall k :: 0 <= k < |ScriptFrames(fetch, stocks, funds, etfs, start, end).value| ==>
      IsOhlc(ScriptFrames(fetch, stocks, funds, etfs, start, end).value[k])
    ensures fetch(KindAt(stocks, funds, j), (stocks + funds + etfs)[j], Country, start, end).Some?
    ensures ScriptFrames(fetch, stocks, funds, etfs, start, end).value[j]
      == fetch(KindAt(stocks, funds, j), (stocks + funds + etfs)[j], Country, start, end).value
  {
    var assets := stocks + funds + etfs;
    FramesFollowAssets(fetch, stocks, funds, etfs, start, end);
    var frames := ScriptFrames(fetch, stocks, funds, etfs, start, end).value;
    forall k | 0 <= k < |frames|
      ensures fetch(KindAt(stocks, funds, k), assets[k], Country, start, end).Some?
      ensures IsOhlc(frames[k])
    {
      if k < |stocks| {
        assert assets[k] == stocks[k];
      } else if k < |stocks| + |funds| {
        assert assets[k] == funds[k - |stocks|];
      } else {
        assert assets[k] == etfs[k - |stocks| - |funds|];
      }
    }
  }

  /** With every request answered by an OHLC frame, the matrix is the build over the frames fetched
      class after class under the sub-header `stocks + funds + etfs`, with 4 * N columns for the N
      assets; BuildOhlcColumn and ScriptFramesOhlc then place asset j's frame at column (field, asset j). */
  lemma GetPortfolioPricesSucceeds(fetch: Fetcher, stocks: seq<string>, funds: seq<string>, etfs: seq<string>,
                                   start: Day, endDate: Option<Day>, loadDay: Day)
    requires Serves(fetch, Stock, stocks, start, EndDate(endDate, loadDay))
    requires Serves(fetch, Fund, funds, start, EndDate(endDate, loadDay))
    requires Serves(fetch, Etf, etfs, start, EndDate(endDate, loadDay))
    requires |Assets(stocks, funds, etfs)| > 0
    ensures ScriptFrames(fetch, stocks, funds, etfs, start, EndDate(endDate, loadDay)).Success?
    ensures GetPortfolioPrices(fetch, stocks, funds, etfs, start, endDate, loadDay)
      == BuildMultiIndexDataFrame(ScriptFrames(fetch, stocks, funds, etfs, start, EndDate(endDate, loadDay)).value,
                                  Assets(stocks, funds, etfs), OhlcFields)
    ensures GetPortfolioPrices(fetch, stocks, funds, etfs, start, endDate, loadDay).Success?
    ensures |GetPortfolioPrices(fetch, stocks, funds, etfs, start, endDate, loadDay).value.columns|
      == Offset(4, |Assets(stocks, funds, etfs)|)
  {
    var end := EndDate(endDate, loadDay);
    var assets := Assets(stocks, funds, etfs);
    ScriptFramesOhlc(fetch, stocks, funds, etfs, start, end, 0);
    var frames := ScriptFrames(fetch, stocks, funds, etfs, start, end).value;
    BuildOhlcColumn(frames, assets, 0, 0);
  }

  /** With no asset at all the header is empty and the build fails. */
  lemma GetPortfolioPricesNoAssets(fetch: Fetcher, start: Day, endDate: Option<Day>, loadDay: Day)
    ensures GetPortfolioPrices(fetch, [], [], [], start, endDate, loadDay) == Failure(EmptyMultiIndex)
  {
    var none: seq<string> := [];
    assert none + none + none == none;
    CrossProductLength(OhlcFields, none);
    OffsetIsProduct(|OhlcFields|, |none|);
  }
}
