/** `PortfolioPrices`: fetches per-asset OHLC frames by asset class and assembles the (field, asset)
    price matrix, keeping it in a field that a refresh replaces. */
module Prices {
  import opened Wrappers
  import opened Errors
  import opened Seqs
  import opened Calendar
  import opened MultiIndex

  /** The asset classes the price source has historical-data calls for. */
  datatype Kind = Stock | Fund | Etf

  /** The country every price request names. */
  const Country: string := "brazil"

  /** The price source: the historical-data call for (class, asset, country, from date, to date);
      None when the call raises. */
  type Fetcher = (Kind, string, string, Day, Day) -> Option<Ohlc>

  /** An asset-search dictionary: (asset class key, asset names) entries in insertion order. */
  type SearchDict = seq<(string, seq<string>)>

  /** The historical-data call a class key selects; None for a key with no branch. */
  function Dispatch(key: string): (r: Option<Kind>)
    ensures r == Some(Stock) <==> key == "stocks"
    ensures r == Some(Fund) <==> key == "funds"
    ensures r == Some(Etf) <==> key == "etfs"
  {
    if key == "stocks" then Some(Stock)
    else if key == "funds" then Some(Fund)
    else if key == "etfs" then Some(Etf)
    else None
  }

  function FetchOne(fetch: Fetcher, kind: Kind, asset: string, country: string, start: Day, end: Day)
    : Result<Ohlc, Error>
  {
    match fetch(kind, asset, country, start, end)
    case None => Failure(DataUnavailable(asset))
    case Some(f) => Success(f)
  }

  /** The frames of `assets`, in order; the first asset whose request raises aborts the list. */
  function AssetFrames(fetch: Fetcher, kind: Kind, country: string, assets: seq<string>, start: Day, end: Day)
    : (r: Result<seq<Ohlc>, Error>)
    ensures r.Success? ==> |r.value| == |assets|
    ensures r.Failure? ==>
      exists k :: 0 <= k < |assets| && r.error == DataUnavailable(assets[k]) && fetch(kind, assets[k], country, start, end).None?
  {
    if assets == [] then Success([])
    else
      assert forall k :: 0 <= k < |assets| - 1 ==> assets[..|assets| - 1][k] == assets[k];
      var init :- AssetFrames(fetch, kind, country, assets[..|assets| - 1], start, end);
      var last :- FetchOne(fetch, kind, assets[|assets| - 1], country, start, end);
      Success(init + [last])
  }

  lemma {:induction false} AssetFramesFailurePrefix(fetch: Fetcher, kind: Kind, country: string, assets: seq<string>,
                                                    start: Day, end: Day, k: nat)
    requires k <= |assets| && AssetFrames(fetch, kind, country, assets[..k], start, end).Failure?
    ensures AssetFrames(fetch, kind, country, assets, start, end) == AssetFrames(fetch, kind, country, assets[..k], start, end)
  {
    if k < |assets| {
      var init := assets[..|assets| - 1];
      assert init[..k] == assets[..k];
      AssetFramesFailurePrefix(fetch, kind, country, init, start, end, k);
    } else {
      assert assets[..k] == assets;
    }
  }

  /** One frame per asset, in asset order, each requested with the same class, country and window;
      the list exists exactly when every request succeeds. */
  lemma {:induction false} AssetFramesCorrect(fetch: Fetcher, kind: Kind, country: string, assets: seq<string>,
                                              start: Day, end: Day)
    ensures AssetFrames(fetch, kind, country, assets, start, end).Success? <==>
      forall i :: 0 <= i < |assets| ==> fetch(kind, assets[i], country, start, end).Some?
    ensures AssetFrames(fetch, kind, country, assets, start, end).Success? ==>
      |AssetFrames(fetch, kind, country, assets, start, end).value| == |assets| &&
      forall i :: 0 <= i < |assets| ==>
        AssetFrames(fetch, kind, country, assets, start, end).value[i] == fetch(kind, assets[i], country, start, end).value
  {
    if assets != [] {
      var init := assets[..|assets| - 1];
      AssetFramesCorrect(fetch, kind, country, init, start, end);
      assert forall i :: 0 <= i < |init| ==> init[i] == assets[i];
    }
  }

  /** The error reported names the first asset whose request raised. */
  lemma {:induction false} AssetFramesFirstFailure(fetch: Fetcher, kind: Kind, country: string, assets: seq<string>,
                                                   start: Day, end: Day, j: nat)
    requires j < |assets| && fetch(kind, assets[j], country, start, end).None?
    requires forall i :: 0 <= i < j ==> fetch(kind, assets[i], country, start, end).Some?
    ensures AssetFrames(fetch, kind, country, assets, start, end) == Failure(DataUnavailable(assets[j]))
  {
    var pre := assets[..j + 1];
    AssetFramesCorrect(fetch, kind, country, pre[..j], start, end);
    assert pre[..j] == assets[..j];
    assert AssetFrames(fetch, kind, country, pre, start, end) == Failure(DataUnavailable(assets[j]));
    AssetFramesFailurePrefix(fetch, kind, country, assets, start, end, j + 1);
  }

  /** `_get_assets_data_frames` (and `get_assets_data_frames`): request each asset in turn and
      append its frame. */
  method GetAssetsDataFrames(fetch: Fetcher, assets: seq<string>, kind: Kind, country: string, start: Day, end: Day)
    returns (r: Result<seq<Ohlc>, Error>)
    ensures r == AssetFrames(fetch, kind, country, assets, start, end)
  {
    var frames: seq<Ohlc> := [];
    var i := 0;
    while i < |assets|
      invariant 0 <= i <= |assets|
      invariant AssetFrames(fetch, kind, country, assets[..i], start, end) == Success(frames)
    {
      var frame := fetch(kind, assets[i], country, start, end);
      assert assets[..i + 1][..i] == assets[..i];
      if frame.None? {
        AssetFramesFailurePrefix(fetch, kind, country, assets, start, end, i + 1);
        return Failure(DataUnavailable(assets[i]));
      }
      frames := frames + [frame.value];
      i := i + 1;
    }
    assert assets[..i] == assets;
    r := Success(frames);
  }

  /** The frames one dictionary entry contributes: its class's requests, or none for an unknown key. */
  function EntryFrames(fetch: Fetcher, entry: (string, seq<string>), start: Day, end: Day): Result<seq<Ohlc>, Error> {
    match Dispatch(entry.0)
    case None => Success([])
    case Some(kind) => AssetFrames(fetch, kind, Country, entry.1, start, end)
  }

  /** The frames of all entries, entry after entry. */
  function DictFrames(fetch: Fetcher, dict: SearchDict, start: Day, end: Day): Result<seq<Ohlc>, Error> {
    if dict == [] then Success([])
    else
      var init :- DictFrames(fetch, dict[..|dict| - 1], start, end);
      var last :- EntryFrames(fetch, dict[|dict| - 1], start, end);
      Success(init + last)
  }

  lemma {:induction false} DictFramesFailurePrefix(fetch: Fetcher, dict: SearchDict, start: Day, end: Day, k: nat)
    requires k <= |dict| && DictFrames(fetch, dict[..k], start, end).Failure?
    ensures DictFrames(fetch, dict, start, end) == DictFrames(fetch, dict[..k], start, end)
  {
    if k < |dict| {
      var init := dict[..|dict| - 1];
      assert init[..k] == dict[..k];
      DictFramesFailurePrefix(fetch, init, start, end, k);
    } else {
      assert dict[..k] == dict;
    }
  }

  /** `_fetch_portfolio_prices`: the frames of every entry, then the matrix built with one sub-header
      argument per entry (`*assets`): only a single entry gives the three arguments the builder takes. */
  function PriceMatrixOf(fetch: Fetcher, dict: SearchDict, start: Day, end: Day): (r: Result<PriceMatrix, Error>)
    ensures |dict| != 1 ==> r.Failure?
    ensures r.Success? ==> forall c :: 0 <= c < |r.value.columns| ==>
      r.value.columns[c].0.0 in OhlcFields && r.value.columns[c].0.1 in dict[0].1
  {
    CrossProductMembers(OhlcFields, if dict == [] then [] else dict[0].1);
    var frames :- DictFrames(fetch, dict, start, end);
    if |dict| != 1 then Failure(WrongArgumentCount(|dict| + 3))
    else BuildMultiIndexDataFrame(frames, dict[0].1, OhlcFields)
  }

  method FetchPortfolioPrices(fetch: Fetcher, dict: SearchDict, start: Day, end: Day)
    returns (r: Result<PriceMatrix, Error>)
    ensures r == PriceMatrixOf(fetch, dict, start, end)
  {
    var frames: seq<Ohlc> := [];
    var k := 0;
    while k < |dict|
      invariant 0 <= k <= |dict|
      invariant DictFrames(fetch, dict[..k], start, end) == Success(frames)
    {
      var (assetType, names) := dict[k];
      var kind := Dispatch(assetType);
      assert dict[..k + 1][..k] == dict[..k];
      if kind.Some? {
        var fetched := GetAssetsDataFrames(fetch, names, kind.value, Country, start, end);
        if fetched.Failure? {
          DictFramesFailurePrefix(fetch, dict, start, end, k + 1);
          return Failure(fetched.error);
        }
        frames := frames + fetched.value;
      } else {
        assert frames + [] == frames;
      }
      k := k + 1;
    }
    assert dict[..k] == dict;
    if |dict| != 1 {
      return Failure(WrongArgumentCount(|dict| + 3));
    }
    r := BuildMultiIndexDataFrame(frames, dict[0].1, OhlcFields);
  }

  /** A dictionary with no entry or with several entries never yields a matrix: once the frames are
      fetched, the builder call has the wrong number of arguments. */
  lemma PriceMatrixArity(fetch: Fetcher, dict: SearchDict, start: Day, end: Day)
    requires |dict| != 1
    ensures PriceMatrixOf(fetch, dict, start, end).Failure?
    ensures DictFrames(fetch, dict, start, end).Success? ==>
      PriceMatrixOf(fetch, dict, start, end).error == WrongArgumentCount(|dict| + 3)
  {
  }

  /** A single entry with an unrecognised key fetches nothing, so the build fails. */
  lemma PriceMatrixUnknownClass(fetch: Fetcher, key: string, names: seq<string>, start: Day, end: Day)
    requires Dispatch(key).None?
    ensures PriceMatrixOf(fetch, [(key, names)], start, end)
      == Failure(if names == [] then EmptyMultiIndex else NoObjectsToConcatenate)
  {
    var d: SearchDict := [(key, names)];
    assert d[..0] == [];
    assert EntryFrames(fetch, d[0], start, end) == Success([]);
    var none: seq<Ohlc> := [];
    assert DictFrames(fetch, d[..0], start, end) == Success(none);
    assert d[|d| - 1] == d[0];
    assert DictFrames(fetch, d, start, end) == Success(none + none);
    assert none + none == none;
    CrossProductLength(OhlcFields, names);
    OffsetIsProduct(|OhlcFields|, |names|);
  }

  /** A single recognised class whose every request returns an OHLC frame: the matrix has four
      columns per asset, and column (field, names[j]) holds the frame requested for names[j], with
      the class's own call, country "brazil" and the given window. */
  lemma PriceMatrixSingleClass(fetch: Fetcher, key: string, names: seq<string>, start: Day, end: Day, i: nat, j: nat)
    requires Dispatch(key).Some? && i < |OhlcFields| && j < |names|
    requires forall k :: 0 <= k < |names| ==>
      fetch(Dispatch(key).value, names[k], Country, start, end).Some? &&
      IsOhlc(fetch(Dispatch(key).value, names[k], Country, start, end).value)
    ensures PriceMatrixOf(fetch, [(key, names)], start, end).Success?
    ensures |PriceMatrixOf(fetch, [(key, names)], start, end).value.columns| == Offset(4, |names|)
    ensures Offset(i, |names|) + j < |PriceMatrixOf(fetch, [(key, names)], start, end).value.columns|
    ensures var frame := fetch(Dispatch(key).value, names[j], Country, start, end).value;
      OhlcFields[i] in frame.columns &&
      PriceMatrixOf(fetch, [(key, names)], start, end).value.columns[Offset(i, |names|) + j]
        == ((OhlcFields[i], names[j]), frame.columns[OhlcFields[i]])
  {
    var kind := Dispatch(key).value;
    var d: SearchDict := [(key, names)];
    assert d[..0] == [];
    AssetFramesCorrect(fetch, kind, Country, names, start, end);
    var frames := AssetFrames(fetch, kind, Country, names, start, end).value;
    assert EntryFrames(fetch, d[0], start, end) == Success(frames);
    assert [] + frames == frames;
    assert DictFrames(fetch, d, start, end) == Success(frames);
    OhlcFrames(frames);
    assert NoDup(OhlcFields);
    BuildMultiIndexDataFrameSucceeds(frames, names, OhlcFields);
    BuildMultiIndexDataFrameColumn(frames, names, OhlcFields, i, j);
  }

  /** One asset class with one asset whose request answers with a frame: that frame is all there is. */
  lemma SingleFrameDict(fetch: Fetcher, key: string, name: string, start: Day, end: Day, frame: Ohlc)
    requires Dispatch(key).Some? && fetch(Dispatch(key).value, name, Country, start, end) == Some(frame)
    ensures DictFrames(fetch, [(key, [name])], start, end) == Success([frame])
  {
    var kind := Dispatch(key).value;
    var dict: SearchDict := [(key, [name])];
    var names := [name];
    assert FetchOne(fetch, kind, name, Country, start, end) == Success(frame);
    assert names[..|names| - 1] == [] && names[|names| - 1] == name;
    assert AssetFrames(fetch, kind, Country, [], start, end) == Success([]);
    assert [] + [frame] == [frame];
    assert AssetFrames(fetch, kind, Country, names, start, end) == Success([frame]);
    assert dict[..|dict| - 1] == [] && dict[|dict| - 1] == (key, names);
    assert DictFrames(fetch, [], start, end) == Success([]);
  }

  /** One asset class with one asset whose request answers with an OHLC frame: the matrix has the
      frame's dates as its rows and the asset's close as its first column. */
  lemma SingleFrameMatrix(fetch: Fetcher, key: string, name: string, start: Day, end: Day, frame: Ohlc)
    requires Dispatch(key).Some? && fetch(Dispatch(key).value, name, Country, start, end) == Some(frame)
    requires IsOhlc(frame) && "Close" in frame.columns
    ensures PriceMatrixOf(fetch, [(key, [name])], start, end).Success?
    ensures var m := PriceMatrixOf(fetch, [(key, [name])], start, end).value;
      (forall d :: d in m.rowLabels <==> d in frame.index) && m.columns != [] &&
      m.columns[0] == (("Close", name), frame.columns["Close"])
  {
    var names := [name];
    PriceMatrixSingleClass(fetch, key, names, start, end, 0, 0);
    SingleFrameDict(fetch, key, name, start, end, frame);
    var m := PriceMatrixOf(fetch, [(key, names)], start, end).value;
    assert m == BuildMultiIndexDataFrame([frame], names, OhlcFields).value;
  }

  /** `PortfolioPrices`: the search dictionary and start date it was built with, and the price matrix
      of the last successful fetch. */
  class PortfolioPrices {
    const fetch: Fetcher
    const assetsSearchDict: SearchDict
    const startDate: Day
    var portfolioPrices: PriceMatrix

    constructor (fetch: Fetcher, assetsSearchDict: SearchDict, startDate: Day, prices: PriceMatrix)
      ensures this.fetch == fetch && this.assetsSearchDict == assetsSearchDict && this.startDate == startDate
      ensures portfolioPrices == prices
    {
      this.fetch := fetch;
      this.assetsSearchDict := assetsSearchDict;
      this.startDate := startDate;
      portfolioPrices := prices;
    }

    /** `__init__`: fetch from `startDate` to `endDate`, which defaults to `today`; raises when the
        fetch does. */
    static method New(fetch: Fetcher, assetsSearchDict: SearchDict, startDate: Day, endDate: Option<Day>, today: Day)
      returns (r: Result<PortfolioPrices, Error>)
      ensures var m := PriceMatrixOf(fetch, assetsSearchDict, startDate, if endDate.Some? then endDate.value else today);
        (m.Failure? ==> r.Failure? && r.error == m.error) &&
        (m.Success? ==> (r.Success? && fresh(r.value) && r.value.portfolioPrices == m.value &&
           r.value.fetch == fetch && r.value.assetsSearchDict == assetsSearchDict && r.value.startDate == startDate))
    {
      var end := if endDate.Some? then endDate.value else today;
      var m := FetchPortfolioPrices(fetch, assetsSearchDict, startDate, end);
      if m.Failure? {
        return Failure(m.error);
      }
      var p := new PortfolioPrices(fetch, assetsSearchDict, startDate, m.value);
      r := Success(p);
    }

    /** `refresh_assets_prices`: refetch with the stored dictionary and start date up to `today`; when
        the fetch raises, the matrix is left as it was. */
    method RefreshAssetsPrices(today: Day) returns (err: Option<Error>)
      modifies this
      ensures var m := PriceMatrixOf(fetch, assetsSearchDict, startDate, today);
        (m.Success? ==> err.None? && portfolioPrices == m.value) &&
        (m.Failure? ==> err == Some(m.error) && portfolioPrices == old(portfolioPrices))
    {
      var m := FetchPortfolioPrices(fetch, assetsSearchDict, startDate, today);
      if m.Failure? {
        return Some(m.error);
      }
      portfolioPrices := m.value;
      err := None;
    }

    /** `get_portfolio_prices`: the current matrix, nothing changed. */
    method GetPortfolioPrices() returns (m: PriceMatrix)
      ensures m == portfolioPrices
    {
      m := portfolioPrices;
    }
  }
}
