/** The ledger and the holdings derived from it: asset grouping by type, units bought per row at
    that day's close, and the per-asset running total of units. */
module Holdings {
  import opened Wrappers
  import opened Errors
  import opened Seqs
  import opened Calendar
  import opened Frames
  import opened MultiIndex
  import opened Prices

  /** An invested amount: ledger values are positive. */
  type Amount = x: real | x > 0.0 witness 1.0

  /** One ledger row: on `date`, `value` was invested in `assetName`, an asset of `assetType`. */
  datatype Row = Row(date: Day, assetName: string, assetType: string, value: Amount)

  /** The price matrix on pandas' business-day calendar (`portfolio_prices.asfreq('B')`): a column's
      entry for a day of `index` that it has no price for is NaN. */
  datatype PriceTable = PriceTable(index: seq<Day>, columns: seq<(Label, Column)>)

  function OnBusinessDays(m: PriceMatrix): (t: PriceTable)
    ensures Increasing(t.index) && t.columns == m.columns
    ensures forall d :: d in t.index ==> IsBusinessDay(d)
  {
    PriceTable(AsFreqB(m.rowLabels), m.columns)
  }

  function Dates(ledger: seq<Row>): (r: seq<Day>)
    ensures |r| == |ledger| && forall i :: 0 <= i < |ledger| ==> r[i] == ledger[i].date
  {
    seq(|ledger|, i requires 0 <= i < |ledger| => ledger[i].date)
  }

  function Names(ledger: seq<Row>): (r: seq<string>)
    ensures |r| == |ledger| && forall i :: 0 <= i < |ledger| ==> r[i] == ledger[i].assetName
  {
    seq(|ledger|, i requires 0 <= i < |ledger| => ledger[i].assetName)
  }

  /** The asset names of the rows of type `t`, in row order. */
  function NamesOfType(ledger: seq<Row>, t: string): (r: seq<string>)
    ensures forall x :: x in r <==> exists i :: 0 <= i < |ledger| && ledger[i].assetType == t && ledger[i].assetName == x
  {
    if ledger == [] then []
    else
      var init := NamesOfType(ledger[..|ledger| - 1], t);
      var last := ledger[|ledger| - 1];
      assert forall i :: 0 <= i < |ledger| - 1 ==> ledger[..|ledger| - 1][i] == ledger[i];
      if last.assetType == t then init + [last.assetName] else init
  }

  /** `_get_assets_by_type`: the set of names of the assets of type `t` (listed once each, in order of
      first appearance), or None when no row has that type. */
  function AssetsByType(ledger: seq<Row>, t: string): (r: Option<seq<string>>)
    ensures r.None? <==> forall i :: 0 <= i < |ledger| ==> ledger[i].assetType != t
    ensures r.Some? ==> (NoDup(r.value) &&
      forall x :: x in r.value <==> exists i :: 0 <= i < |ledger| && ledger[i].assetType == t && ledger[i].assetName == x)
  {
    var names := NamesOfType(ledger, t);
    if names == [] then
      assert forall i :: 0 <= i < |ledger| ==> ledger[i].assetName !in names;
      None
    else
      assert names[0] in names;
      Some(Distinct(names))
  }

  function Entry(key: string, assets: Option<seq<string>>): SearchDict {
    if assets.Some? then [(key, assets.value)] else []
  }

  /** The search dictionary `_get_portfolio_prices` builds: funds, then stocks, then ETFs, each only
      when the ledger has an asset of that type. */
  function SearchDictOf(ledger: seq<Row>): (r: SearchDict)
    ensures |r| <= 3
    ensures forall e :: e in r ==> e.0 in ["funds", "stocks", "etfs"] && e.1 != []
  {
    Entry("funds", AssetsByType(ledger, "fund")) + Entry("stocks", AssetsByType(ledger, "stock"))
      + Entry("etfs", AssetsByType(ledger, "etf"))
  }

  /** The dictionary has one entry per type present, keyed and valued as the grouping says. */
  lemma SearchDictOfEntries(ledger: seq<Row>)
    ensures |SearchDictOf(ledger)| ==
      (if AssetsByType(ledger, "fund").Some? then 1 else 0) + (if AssetsByType(ledger, "stock").Some? then 1 else 0)
      + (if AssetsByType(ledger, "etf").Some? then 1 else 0)
    ensures forall e :: e in SearchDictOf(ledger) <==>
      (e.0 == "funds" && AssetsByType(ledger, "fund") == Some(e.1)) ||
      (e.0 == "stocks" && AssetsByType(ledger, "stock") == Some(e.1)) ||
      (e.0 == "etfs" && AssetsByType(ledger, "etf") == Some(e.1))
  {
  }

  /** Every key of the dictionary is a recognised class key. */
  lemma SearchDictKeysDispatch(ledger: seq<Row>)
    ensures forall e :: e in SearchDictOf(ledger) ==> Dispatch(e.0).Some?
  {
    SearchDictOfEntries(ledger);
  }

  /** A ledger holding two types of asset yields a dictionary of two or more entries. */
  lemma TwoTypesTwoEntries(ledger: seq<Row>, i: nat, j: nat)
    requires i < |ledger| && j < |ledger|
    requires ledger[i].assetType in {"fund", "stock", "etf"} && ledger[j].assetType in {"fund", "stock", "etf"}
    requires ledger[i].assetType != ledger[j].assetType
    ensures |SearchDictOf(ledger)| >= 2
  {
    SearchDictOfEntries(ledger);
  }

  /** `prices['Close'][asset]`: the first close column labelled with the asset, if any. */
  function CloseColumn(columns: seq<(Label, Column)>, asset: string): (r: Option<Column>)
    ensures r.None? <==> forall c :: 0 <= c < |columns| ==> columns[c].0 != ("Close", asset)
    ensures r.Some? ==> exists c :: 0 <= c < |columns| && columns[c] == (("Close", asset), r.value)
  {
    if columns == [] then None
    else if columns[0].0 == ("Close", asset) then Some(columns[0].1)
    else
      var r := CloseColumn(columns[1..], asset);
      assert forall c :: 1 <= c < |columns| ==> columns[c] == columns[1..][c - 1];
      assert r.Some? ==> columns[1..][IndexOfColumn(columns[1..], asset, r.value)] == (("Close", asset), r.value);
      r
  }

  ghost function IndexOfColumn(columns: seq<(Label, Column)>, asset: string, col: Column): (c: nat)
    requires exists c :: 0 <= c < |columns| && columns[c] == (("Close", asset), col)
    ensures c < |columns| && columns[c] == (("Close", asset), col)
  {
    var c :| 0 <= c < |columns| && columns[c] == (("Close", asset), col); c
  }

  /** The close of `asset` on `d` in the table: NaN (None) when `d` is on the calendar but the asset
      has no price for it, or when the asset has no close column. */
  function CloseOn(prices: PriceTable, asset: string, d: Day): Option<Price> {
    match CloseColumn(prices.columns, asset)
    case None => None
    case Some(col) => if d in prices.index && d in col then Some(col[d]) else None
  }

  /** The units one row buys: its value divided by the asset's close on the row's own date. An asset
      with no close column or a date off the calendar raises (KeyError); a NaN close gives NaN. */
  function Unit(prices: PriceTable, row: Row): (r: Result<Option<real>, Error>)
    ensures r.Success? <==> CloseColumn(prices.columns, row.assetName).Some? && row.date in prices.index
    ensures r.Success? && r.value.Some? ==> r.value.value > 0.0
  {
    match CloseColumn(prices.columns, row.assetName)
    case None => Failure(UnknownAsset(row.assetName))
    case Some(col) =>
      if row.date !in prices.index then Failure(DateNotInIndex(row.date))
      else if row.date in col then Success(Some((row.value as real) / (col[row.date] as real)))
      else Success(None)
  }

  /** The units of every row, in row order; the first row that raises aborts. */
  function Units(prices: PriceTable, ledger: seq<Row>): (r: Result<seq<Option<real>>, Error>)
    ensures r.Success? ==> |r.value| == |ledger| && PositiveUnits(r.value)
  {
    if ledger == [] then Success([])
    else
      var init :- Units(prices, ledger[..|ledger| - 1]);
      var last :- Unit(prices, ledger[|ledger| - 1]);
      Success(init + [last])
  }

  lemma {:induction false} UnitsFailurePrefix(prices: PriceTable, ledger: seq<Row>, k: nat)
    requires k <= |ledger| && Units(prices, ledger[..k]).Failure?
    ensures Units(prices, ledger) == Units(prices, ledger[..k])
  {
    if k < |ledger| {
      var init := ledger[..|ledger| - 1];
      assert init[..k] == ledger[..k];
      UnitsFailurePrefix(prices, init, k);
    } else {
      assert ledger[..k] == ledger;
    }
  }

  /** Units exist exactly when every row's asset has a close column and every row's date is on the
      calendar; then row i's units are its value over its own asset's close on its own date. */
  lemma {:induction false} UnitsCorrect(prices: PriceTable, ledger: seq<Row>)
    ensures Units(prices, ledger).Success? <==>
      forall i :: 0 <= i < |ledger| ==>
        CloseColumn(prices.columns, ledger[i].assetName).Some? && ledger[i].date in prices.index
    ensures Units(prices, ledger).Success? ==>
      |Units(prices, ledger).value| == |ledger| &&
      forall i :: 0 <= i < |ledger| ==> Units(prices, ledger).value[i] == Unit(prices, ledger[i]).value
  {
    if ledger != [] {
      var init := ledger[..|ledger| - 1];
      UnitsCorrect(prices, init);
      assert forall i :: 0 <= i < |init| ==> init[i] == ledger[i];
    }
  }

  /** A row whose close is present buys value / close units, and those units are worth the value
      again at that close. */
  lemma UnitRoundTrip(prices: PriceTable, row: Row)
    requires CloseOn(prices, row.assetName, row.date).Some?
    ensures Unit(prices, row) == Success(Some((row.value as real) / (CloseOn(prices, row.assetName, row.date).value as real)))
    ensures (CloseOn(prices, row.assetName, row.date).value as real) * Unit(prices, row).value.value == row.value as real
  {
    var p := CloseOn(prices, row.assetName, row.date).value as real;
    var v := row.value as real;
    assert p * (v / p) == v;
  }

  /** The first loop of `_mount_wallet_shares`: divide each row's value by its close, appending to
      `wallet_shares` row by row; the first row that raises aborts. */
  method RowUnits(prices: PriceTable, ledger: seq<Row>) returns (r: Result<seq<Option<real>>, Error>)
    ensures r == Units(prices, ledger)
  {
    var units: seq<Option<real>> := [];
    var i := 0;
    while i < |ledger|
      invariant i <= |ledger| && Units(prices, ledger[..i]) == Success(units)
    {
      assert ledger[..i + 1][..i] == ledger[..i];
      var u := Unit(prices, ledger[i]);
      if u.Failure? {
        UnitsFailurePrefix(prices, ledger, i + 1);
        return Failure(u.error);
      }
      units := units + [u.value];
      i := i + 1;
    }
    assert ledger[..i] == ledger;
    r := Success(units);
  }

  /** Sum of the units present in the first n rows that are of asset `a`. */
  function AssetTotal(ledger: seq<Row>, units: seq<Option<real>>, a: string, n: nat): real
    requires n <= |ledger| && |units| == |ledger|
  {
    if n == 0 then 0.0
    else
      var own := if ledger[n - 1].assetName == a && units[n - 1].Some? then units[n - 1].value else 0.0;
      AssetTotal(ledger, units, a, n - 1) + own
  }

  /** The `shares` column after the per-asset `cumsum`: each row's running total of units over the
      rows of its own asset up to and including it; NaN stays NaN and is skipped by later rows. */
  function CumShares(ledger: seq<Row>, units: seq<Option<real>>): (r: seq<Option<real>>)
    requires |units| == |ledger|
    ensures |r| == |ledger|
    ensures forall i :: 0 <= i < |ledger| ==> (r[i].Some? <==> units[i].Some?)
  {
    seq(|ledger|, i requires 0 <= i < |ledger| =>
      if units[i].None? then None else Some(AssetTotal(ledger, units, ledger[i].assetName, i + 1)))
  }

  predicate PositiveUnits(units: seq<Option<real>>) {
    forall i :: 0 <= i < |units| && units[i].Some? ==> units[i].value > 0.0
  }

  lemma {:induction false} AssetTotalMonotone(ledger: seq<Row>, units: seq<Option<real>>, a: string, m: nat, n: nat)
    requires m <= n <= |ledger| && |units| == |ledger| && PositiveUnits(units)
    ensures AssetTotal(ledger, units, a, m) <= AssetTotal(ledger, units, a, n)
  {
    if m < n {
      AssetTotalMonotone(ledger, units, a, m, n - 1);
    }
  }

  /** With positive units, an asset's holdings never decrease from one of its rows to a later one. */
  lemma CumSharesMonotone(ledger: seq<Row>, units: seq<Option<real>>, i: nat, j: nat)
    requires |units| == |ledger| && PositiveUnits(units)
    requires i < j < |ledger| && ledger[i].assetName == ledger[j].assetName
    requires units[i].Some? && units[j].Some?
    ensures CumShares(ledger, units)[i].value < CumShares(ledger, units)[j].value
  {
    AssetTotalMonotone(ledger, units, ledger[i].assetName, i + 1, j);
  }

  /** Each row's holdings are at least the units the row itself bought. */
  lemma CumSharesCoverOwnUnits(ledger: seq<Row>, units: seq<Option<real>>, i: nat)
    requires |units| == |ledger| && PositiveUnits(units) && i < |ledger| && units[i].Some?
    ensures CumShares(ledger, units)[i].value >= units[i].value
  {
    AssetTotalMonotone(ledger, units, ledger[i].assetName, 0, i);
  }

  /** With positive units no row's holdings are negative. */
  lemma CumSharesNonNegative(ledger: seq<Row>, units: seq<Option<real>>)
    requires |units| == |ledger| && PositiveUnits(units)
    ensures NonNegative(CumShares(ledger, units))
  {
    forall i | 0 <= i < |ledger| && units[i].Some? ensures CumShares(ledger, units)[i].value >= 0.0 {
      CumSharesCoverOwnUnits(ledger, units, i);
    }
  }

  lemma {:induction false} AssetTotalOwnRows(ledger: seq<Row>, u: seq<Option<real>>, v: seq<Option<real>>, a: string, n: nat)
    requires n <= |ledger| && |u| == |ledger| && |v| == |ledger|
    requires forall k :: 0 <= k < n && ledger[k].assetName == a ==> u[k] == v[k]
    ensures AssetTotal(ledger, u, a, n) == AssetTotal(ledger, v, a, n)
  {
    if n > 0 {
      AssetTotalOwnRows(ledger, u, v, a, n - 1);
    }
  }

  /** A row's holdings depend only on the units of its own asset's rows: changing the units of rows
      of other assets leaves them as they are. */
  lemma CumSharesOwnAsset(ledger: seq<Row>, u: seq<Option<real>>, v: seq<Option<real>>, i: nat)
    requires |u| == |ledger| && |v| == |ledger| && i < |ledger|
    requires forall k :: 0 <= k < |ledger| && ledger[k].assetName == ledger[i].assetName ==> u[k] == v[k]
    ensures CumShares(ledger, u)[i] == CumShares(ledger, v)[i]
  {
    AssetTotalOwnRows(ledger, u, v, ledger[i].assetName, i + 1);
  }

  /** The first row of an asset holds just what it bought; a later row adds its units to the
      holdings of the asset's previous row with units. */
  lemma CumSharesStep(ledger: seq<Row>, units: seq<Option<real>>, i: nat, j: nat)
    requires |units| == |ledger| && i < j < |ledger| && ledger[i].assetName == ledger[j].assetName
    requires units[i].Some? && units[j].Some?
    requires forall k :: i < k < j && ledger[k].assetName == ledger[j].assetName ==> units[k].None?
    ensures CumShares(ledger, units)[j].value == CumShares(ledger, units)[i].value + units[j].value
  {
    var a := ledger[j].assetName;
    var k := i + 1;
    while k < j
      invariant i + 1 <= k <= j
      invariant AssetTotal(ledger, units, a, k) == AssetTotal(ledger, units, a, i + 1)
    {
      k := k + 1;
    }
  }

  lemma {:induction false} AssetTotalNoEarlier(ledger: seq<Row>, units: seq<Option<real>>, a: string, n: nat)
    requires n <= |ledger| && |units| == |ledger|
    requires forall k :: 0 <= k < n && ledger[k].assetName == a ==> units[k].None?
    ensures AssetTotal(ledger, units, a, n) == 0.0
  {
    if n > 0 {
      AssetTotalNoEarlier(ledger, units, a, n - 1);
    }
  }

  lemma CumSharesFirst(ledger: seq<Row>, units: seq<Option<real>>, i: nat)
    requires |units| == |ledger| && i < |ledger| && units[i].Some?
    requires forall k :: 0 <= k < i && ledger[k].assetName == ledger[i].assetName ==> units[k].None?
    ensures CumShares(ledger, units)[i] == units[i]
  {
    AssetTotalNoEarlier(ledger, units, ledger[i].assetName, i);
  }

  /** One pass of the second loop of `_mount_wallet_shares`: the rows of `asset` take their running
      total (`cumsum` over that asset's rows, NaN skipped), every other row keeps its entry. */
  method AccumulateAsset(ledger: seq<Row>, units: seq<Option<real>>, shares: seq<Option<real>>, asset: string)
    returns (r: seq<Option<real>>)
    requires |units| == |ledger| && |shares| == |ledger|
    requires forall k :: 0 <= k < |ledger| && ledger[k].assetName == asset ==> shares[k] == units[k]
    ensures |r| == |ledger|
    ensures forall k :: 0 <= k < |ledger| ==>
      r[k] == if ledger[k].assetName == asset then CumShares(ledger, units)[k] else shares[k]
  {
    r := shares;
    var total := 0.0;
    var j := 0;
    while j < |ledger|
      invariant j <= |ledger| && |r| == |ledger|
      invariant total == AssetTotal(ledger, units, asset, j)
      invariant forall k :: 0 <= k < |ledger| ==>
        (r[k] == if ledger[k].assetName == asset && k < j then CumShares(ledger, units)[k] else shares[k])
    {
      if ledger[j].assetName == asset && units[j].Some? {
        total := total + units[j].value;
        r := r[j := Some(total)];
      }
      j := j + 1;
    }
  }

  /** The per-asset pass over the whole ledger: every asset's rows, one asset after another, take
      their running totals. */
  method AccumulateShares(ledger: seq<Row>, units: seq<Option<real>>) returns (r: seq<Option<real>>)
    requires |units| == |ledger|
    ensures r == CumShares(ledger, units)
  {
    r := units;
    var names := Distinct(Names(ledger));
    var a := 0;
    while a < |names|
      invariant a <= |names| && |r| == |ledger|
      invariant forall k :: 0 <= k < |ledger| ==>
        (r[k] == if ledger[k].assetName in names[..a] then CumShares(ledger, units)[k] else units[k])
    {
      r := AccumulateAsset(ledger, units, r, names[a]);
      assert names[..a + 1] == names[..a] + [names[a]];
      a := a + 1;
    }
    assert forall k :: 0 <= k < |ledger| ==> ledger[k].assetName in names[..a] by {
      assert names[..a] == names;
      forall k | 0 <= k < |ledger| ensures ledger[k].assetName in names { assert Names(ledger)[k] == ledger[k].assetName; }
    }
  }
}
