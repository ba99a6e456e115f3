/** The `Portfolio` object: a ledger, the prices of its assets from 2018-01-01 on, the running
    holdings, their allocation time series and value, and the series reported from them. */
module Portfolios {
  import opened Wrappers
  import opened Errors
  import opened Seqs
  import opened Calendar
  import opened Frames
  import opened MultiIndex
  import opened Prices
  import opened Holdings
  import opened Allocation
  import opened Valuation

  /** Everything `__init__` stores. */
  datatype Snapshot = Snapshot(wallet: seq<Row>, shares: seq<Option<real>>, firstDate: Day, prices: PriceTable,
                               allocations: Table, portfolio: Table)

  /** `__init__` on a ledger: `fetch` answers the price requests, `today` is the end date of the
      price window and `cutoff` (the load-time TODAY) the end of the allocation calendar. An empty
      ledger has no first date; every later step raises as the step it models does. */
  function PortfolioOf(fetch: Fetcher, ledger: seq<Row>, cutoff: Day, today: Day): (r: Result<Snapshot, Error>)
    ensures ledger == [] ==> r == Failure(EmptyLedger)
    ensures r.Success? ==> r.value.wallet == ledger && |r.value.shares| == |ledger| && r.value.firstDate in Dates(ledger)
  {
    if ledger == [] then Failure(EmptyLedger)
    else
      var m :- PriceMatrixOf(fetch, SearchDictOf(ledger), Jan1st2018, today);
      Mount(OnBusinessDays(m), ledger, cutoff)
  }

  /** The steps of `__init__` after the price fetch: holdings, allocations, values. */
  function Mount(prices: PriceTable, ledger: seq<Row>, cutoff: Day): (r: Result<Snapshot, Error>)
    requires ledger != []
    ensures r.Success? ==> r.value.wallet == ledger && |r.value.shares| == |ledger| && r.value.firstDate in Dates(ledger)
    ensures r.Success? ==> r.value.prices == prices && r.value.firstDate == Min(Dates(ledger))
  {
    var units :- Units(prices, ledger);
    var shares := CumShares(ledger, units);
    var tables :- Tables(prices, ledger, shares, cutoff);
    Success(Snapshot(ledger, shares, Min(Dates(ledger)), prices, tables.0, tables.1))
  }

  /** The allocation table of the holdings, then the value table of that allocation. */
  function Tables(prices: PriceTable, ledger: seq<Row>, shares: seq<Option<real>>, cutoff: Day)
    : (r: Result<(Table, Table), Error>)
    requires |shares| == |ledger|
    ensures r.Success? ==> Shaped(r.value.0) && Shaped(r.value.1) && r.value.1.names == r.value.0.names
  {
    var alloc :- AllocationTable(ledger, shares, cutoff);
    var portfolio :- PortfolioTable(prices, alloc);
    Success((alloc, portfolio))
  }

  /** A ledger with rows either raises the price fetch's error or goes on to mount the holdings. */
  lemma PortfolioOfUnfold(fetch: Fetcher, ledger: seq<Row>, cutoff: Day, today: Day)
    requires ledger != []
    ensures var m := PriceMatrixOf(fetch, SearchDictOf(ledger), Jan1st2018, today);
      (m.Failure? ==> PortfolioOf(fetch, ledger, cutoff, today) == Failure(m.error)) &&
      (m.Success? ==> PortfolioOf(fetch, ledger, cutoff, today) == Mount(OnBusinessDays(m.value), ledger, cutoff))
  {
  }

  /** The price fetch is driven by the asset classes in the ledger: holding two of them leaves the
      search dictionary with two entries, and the portfolio is never built. */
  lemma MixedLedgerFails(fetch: Fetcher, ledger: seq<Row>, cutoff: Day, today: Day, i: nat, j: nat)
    requires i < |ledger| && j < |ledger|
    requires ledger[i].assetType in {"fund", "stock", "etf"} && ledger[j].assetType in {"fund", "stock", "etf"}
    requires ledger[i].assetType != ledger[j].assetType
    ensures PortfolioOf(fetch, ledger, cutoff, today).Failure?
  {
    TwoTypesTwoEntries(ledger, i, j);
    PriceMatrixArity(fetch, SearchDictOf(ledger), Jan1st2018, today);
  }

  /** What a built portfolio satisfies: aligned shares, the first ledger date, business-day
      calendars in order, one column per allocated asset on both tables, and no negative holding,
      allocation or value. */
  predicate Consistent(s: Snapshot) {
    s.wallet != [] && |s.shares| == |s.wallet| && s.firstDate == Min(Dates(s.wallet)) &&
    Shaped(s.allocations) && Shaped(s.portfolio) && s.portfolio.names == s.allocations.names &&
    Increasing(s.prices.index) && Increasing(s.allocations.index) && Increasing(s.portfolio.index) &&
    NonNegative(s.shares) && CellsNonNegative(s.allocations) && CellsNonNegative(s.portfolio)
  }

  /** The steps a built portfolio went through, each one succeeding. */
  lemma PortfolioOfSteps(fetch: Fetcher, ledger: seq<Row>, cutoff: Day, today: Day) returns (units: seq<Option<real>>)
    requires PortfolioOf(fetch, ledger, cutoff, today).Success?
    ensures var s := PortfolioOf(fetch, ledger, cutoff, today).value;
      ledger != [] && s.wallet == ledger && s.firstDate == Min(Dates(ledger)) &&
      Units(s.prices, ledger) == Success(units) && |units| == |ledger| && PositiveUnits(units) &&
      s.shares == CumShares(ledger, units) &&
      AllocationTable(ledger, s.shares, cutoff) == Success(s.allocations) &&
      PortfolioTable(s.prices, s.allocations) == Success(s.portfolio)
  {
    var m := PriceMatrixOf(fetch, SearchDictOf(ledger), Jan1st2018, today).value;
    assert PortfolioOf(fetch, ledger, cutoff, today) == Mount(OnBusinessDays(m), ledger, cutoff);
    units := MountSteps(OnBusinessDays(m), ledger, cutoff);
  }

  lemma MountSteps(prices: PriceTable, ledger: seq<Row>, cutoff: Day) returns (units: seq<Option<real>>)
    requires ledger != [] && Mount(prices, ledger, cutoff).Success?
    ensures var s := Mount(prices, ledger, cutoff).value;
      Units(prices, ledger) == Success(units) && |units| == |ledger| && PositiveUnits(units) &&
      s.shares == CumShares(ledger, units) &&
      AllocationTable(ledger, s.shares, cutoff) == Success(s.allocations) &&
      PortfolioTable(prices, s.allocations) == Success(s.portfolio)
  {
    units := Units(prices, ledger).value;
  }

  lemma PortfolioOfConsistent(fetch: Fetcher, ledger: seq<Row>, cutoff: Day, today: Day)
    requires PortfolioOf(fetch, ledger, cutoff, today).Success?
    ensures Consistent(PortfolioOf(fetch, ledger, cutoff, today).value)
  {
    var s := PortfolioOf(fetch, ledger, cutoff, today).value;
    var units := PortfolioOfSteps(fetch, ledger, cutoff, today);
    PortfolioIndexSpan(s.prices, s.allocations);
    PortfolioTableShape(s.prices, s.allocations);
    CumSharesNonNegative(ledger, units);
    AllocationTableNonNegative(ledger, s.shares, cutoff, s.allocations);
    PortfolioTableNonNegative(s.prices, s.allocations, s.portfolio);
  }

  /** In a built portfolio an asset's holdings grow strictly from one of its priced rows to a later one. */
  lemma PortfolioSharesGrow(fetch: Fetcher, ledger: seq<Row>, cutoff: Day, today: Day, i: nat, j: nat)
    requires PortfolioOf(fetch, ledger, cutoff, today).Success?
    requires i < j < |ledger| && ledger[i].assetName == ledger[j].assetName
    requires PortfolioOf(fetch, ledger, cutoff, today).value.shares[i].Some?
    requires PortfolioOf(fetch, ledger, cutoff, today).value.shares[j].Some?
    ensures PortfolioOf(fetch, ledger, cutoff, today).value.shares[i].value
      < PortfolioOf(fetch, ledger, cutoff, today).value.shares[j].value
  {
    var units := PortfolioOfSteps(fetch, ledger, cutoff, today);
    CumSharesMonotone(ledger, units, i, j);
  }

  /** A built portfolio never reports a negative patrimony. */
  lemma PortfolioPatrimonyNonNegative(fetch: Fetcher, ledger: seq<Row>, cutoff: Day, today: Day)
    requires PortfolioOf(fetch, ledger, cutoff, today).Success?
    ensures var s := PortfolioOf(fetch, ledger, cutoff, today).value;
      Shaped(s.portfolio) && forall e :: e in Patrimony(s.portfolio, s.firstDate) ==> e.1 >= 0.0
  {
    var s := PortfolioOf(fetch, ledger, cutoff, today).value;
    PortfolioOfConsistent(fetch, ledger, cutoff, today);
    PatrimonyNonNegative(s.portfolio, s.firstDate);
  }

  /** One purchase of amount A of an asset on business day D whose close on D is P: the row buys A / P
      units, and its running total is those units. */
  lemma SinglePurchaseShares(prices: PriceTable, row: Row)
    requires CloseOn(prices, row.assetName, row.date).Some?
    ensures Units(prices, [row]).Success?
    ensures CumShares([row], Units(prices, [row]).value)
      == [Some((row.value as real) / (CloseOn(prices, row.assetName, row.date).value as real))]
  {
    var ledger := [row];
    var q := (row.value as real) / (CloseOn(prices, row.assetName, row.date).value as real);
    UnitRoundTrip(prices, row);
    assert ledger[..|ledger| - 1] == [] && ledger[|ledger| - 1] == row;
    assert Units(prices, []) == Success([]);
    assert Units(prices, ledger) == Success([] + [Some(q)]);
    assert [] + [Some(q)] == [Some(q)];
    assert AssetTotal(ledger, [Some(q)], row.assetName, 1) == q;
  }

  /** A single ledger row dated on business day D: the allocation table has the row's asset as its one
      column, and that column holds the row's shares on D. */
  lemma SingleRowAllocation(row: Row, shares: seq<Option<real>>, cutoff: Day)
    requires IsBusinessDay(row.date) && |shares| == 1 && shares[0].Some?
    ensures AllocationTable([row], shares, cutoff).Success?
    ensures var alloc := AllocationTable([row], shares, cutoff).value;
      alloc.names == [row.assetName] && CellOn(alloc, 0, row.date) == shares[0]
  {
    var ledger := [row];
    var d, a := row.date, row.assetName;
    assert !HasDuplicate(ledger);
    assert Dates(ledger) == [d];
    assert BusinessDays(d, d) == [d] by {
      assert BusinessDays(d + 1, d) == [];
    }
    assert AllocationIndex(ledger, cutoff).Success?;
    assert Names(ledger) == [a];
    assert SortedDistinct([a]) == [a] by {
      assert [a][..0] == [];
    }
    var alloc := AllocationTable(ledger, shares, cutoff).value;
    AllocationIndexSpan(ledger, cutoff);
    assert d in alloc.index;
    var k0 := IndexOf(alloc.index, d).value;
    AllocationAt(ledger, shares, cutoff, alloc, 0, k0, k0, 0);
  }

  /** An allocation of u units of a priced asset on business day D: the holding is worth close * u on D. */
  lemma HoldingValueOn(prices: PriceTable, alloc: Table, t: Table, d: Day)
    requires Shaped(alloc) && PortfolioTable(prices, alloc) == Success(t) && alloc.names != [] && IsBusinessDay(d)
    requires CloseOn(prices, alloc.names[0], d).Some? && CellOn(alloc, 0, d).Some?
    ensures Shaped(t) && t.names == alloc.names
    ensures CellOn(t, 0, d) == Worth(CloseOn(prices, alloc.names[0], d), CellOn(alloc, 0, d))
  {
    PortfolioTableShape(prices, alloc);
    assert d in alloc.index by {
      assert IndexOf(alloc.index, d).Some?;
    }
    assert d in t.index by {
      PortfolioIndexSpan(prices, alloc);
    }
    var k := IndexOf(t.index, d).value;
    assert t.index[k] == d && t.names == alloc.names && Shaped(t);
    PortfolioValueAt(prices, alloc, t, 0, k);
    assert CellOn(t, 0, d) == t.cols[0][k];
  }

  /** Units bought at price p with amount v are worth v at that price. */
  lemma BuyBack(p: Price, v: real)
    ensures Worth(Some(p), Some(v / (p as real))) == Some(v)
  {
    var close: Option<Price>, units: Option<real> := Some(p), Some(v / (p as real));
    assert close.value as real == p as real && units.value == v / (p as real);
    assert (p as real) * (v / (p as real)) == v;
    assert Worth(close, units).Some?;
    assert Worth(close, units).value == (close.value as real) * units.value;
    assert Worth(close, units).value == v;
    assert Worth(close, units) == Some(v);
  }

  /** One purchase of amount A of an asset on business day D whose close on D is P: the allocation on
      D is A / P, and the holding is worth P * (A / P) = A on D. */
  lemma SinglePurchaseRoundTrip(prices: PriceTable, row: Row, cutoff: Day)
    requires IsBusinessDay(row.date) && CloseOn(prices, row.assetName, row.date).Some?
    ensures Units(prices, [row]).Success?
    ensures var p := CloseOn(prices, row.assetName, row.date).value as real;
      var shares := CumShares([row], Units(prices, [row]).value);
      shares == [Some((row.value as real) / p)] &&
      AllocationTable([row], shares, cutoff).Success? &&
      var alloc := AllocationTable([row], shares, cutoff).value;
      alloc.names == [row.assetName] && CellOn(alloc, 0, row.date) == Some((row.value as real) / p) &&
      PortfolioTable(prices, alloc).Success? &&
      CellOn(PortfolioTable(prices, alloc).value, 0, row.date) == Some(row.value as real)
  {
    var p := CloseOn(prices, row.assetName, row.date).value as real;
    var v := row.value as real;
    SinglePurchaseShares(prices, row);
    var shares := CumShares([row], Units(prices, [row]).value);
    SingleRowAllocation(row, shares, cutoff);
    var alloc := AllocationTable([row], shares, cutoff).value;
    PortfolioTableShape(prices, alloc);
    var t := PortfolioTable(prices, alloc).value;
    HoldingValueOn(prices, alloc, t, row.date);
    BuyBack(CloseOn(prices, row.assetName, row.date).value, v);
  }

  /** A one-purchase ledger: 100 invested in the stock PETR4 on Monday 1 January 2018. */
  function ExampleRow(): Row {
    Row(Jan1st2018, "PETR4", "stock", 100.0)
  }

  /** A price source answering every request with one day of prices, all at 25 on 1 January 2018. */
  function ExampleFrame(): Ohlc {
    var col: Column := map[Jan1st2018 := 25.0];
    Ohlc([Jan1st2018], map["Close" := col, "Open" := col, "High" := col, "Low" := col])
  }

  function ExampleFetch(): Fetcher {
    (kind: Kind, asset: string, country: string, start: Day, end: Day) => Some(ExampleFrame())
  }

  lemma ExampleDict()
    ensures SearchDictOf([ExampleRow()]) == [("stocks", ["PETR4"])]
  {
    var ledger := [ExampleRow()];
    assert ledger[..0] == [];
    assert NamesOfType(ledger, "stock") == ["PETR4"];
    assert Distinct(["PETR4"]) == ["PETR4"] by {
      assert ["PETR4"][..0] == [];
    }
    assert AssetsByType(ledger, "fund") == None;
    assert AssetsByType(ledger, "etf") == None;
  }

  /** The example's one request answers with its one frame. */
  lemma ExampleFrames(today: Day)
    ensures DictFrames(ExampleFetch(), [("stocks", ["PETR4"])], Jan1st2018, today) == Success([ExampleFrame()])
  {
    SingleFrameDict(ExampleFetch(), "stocks", "PETR4", Jan1st2018, today, ExampleFrame());
  }

  /** The example's matrix: indexed by 1 January 2018 alone, its first column PETR4's close. */
  lemma ExampleMatrix(today: Day)
    ensures PriceMatrixOf(ExampleFetch(), [("stocks", ["PETR4"])], Jan1st2018, today).Success?
    ensures var m := PriceMatrixOf(ExampleFetch(), [("stocks", ["PETR4"])], Jan1st2018, today).value;
      (forall d :: d in m.rowLabels <==> d == Jan1st2018) && m.columns != [] &&
      m.columns[0] == (("Close", "PETR4"), ExampleFrame().columns["Close"])
  {
    assert IsOhlc(ExampleFrame());
    SingleFrameMatrix(ExampleFetch(), "stocks", "PETR4", Jan1st2018, today, ExampleFrame());
  }

  /** The price table of the example: 1 January 2018 is on its calendar with PETR4 closing at 25. */
  lemma ExamplePrices(today: Day)
    ensures PriceMatrixOf(ExampleFetch(), [("stocks", ["PETR4"])], Jan1st2018, today).Success?
    ensures CloseOn(OnBusinessDays(PriceMatrixOf(ExampleFetch(), [("stocks", ["PETR4"])], Jan1st2018, today).value),
                    "PETR4", Jan1st2018) == Some(25.0)
  {
    var frame := ExampleFrame();
    assert IsOhlc(frame) && frame.columns["Close"][Jan1st2018] == 25.0;
    SingleFrameClose(ExampleFetch(), "stocks", "PETR4", Jan1st2018, today, frame, Jan1st2018);
  }

  /** One asset class with one asset whose frame holds prices for business day D alone: on the
      portfolio's calendar the asset's close on D is the one in the frame. */
  lemma SingleFrameClose(fetch: Fetcher, key: string, name: string, start: Day, end: Day, frame: Ohlc, d: Day)
    requires Dispatch(key).Some? && fetch(Dispatch(key).value, name, Country, start, end) == Some(frame)
    requires IsOhlc(frame) && "Close" in frame.columns && d in frame.columns["Close"]
    requires IsBusinessDay(d) && forall x :: x in frame.index <==> x == d
    ensures PriceMatrixOf(fetch, [(key, [name])], start, end).Success?
    ensures CloseOn(OnBusinessDays(PriceMatrixOf(fetch, [(key, [name])], start, end).value), name, d)
      == Some(frame.columns["Close"][d])
  {
    SingleFrameMatrix(fetch, key, name, start, end, frame);
    SingleDayClose(PriceMatrixOf(fetch, [(key, [name])], start, end).value, name, d, frame.columns["Close"]);
  }

  /** Prices recorded on one business day only, the first column an asset's close: on the
      business-day calendar that day's close is the recorded one. */
  lemma SingleDayClose(m: PriceMatrix, asset: string, d: Day, col: Column)
    requires IsBusinessDay(d) && forall x :: x in m.rowLabels <==> x == d
    requires m.columns != [] && m.columns[0] == (("Close", asset), col) && d in col
    ensures CloseOn(OnBusinessDays(m), asset, d) == Some(col[d])
  {
    assert d in m.rowLabels;
    assert Min(m.rowLabels) == d && Max(m.rowLabels) == d;
    assert d in OnBusinessDays(m).index;
    assert CloseColumn(m.columns, asset) == Some(col);
  }

  /** The whole constructor on the example: it succeeds, the purchase buys 100 / 25 = 4 shares, and
      on its day the holding is worth the 100 invested. */
  lemma OnePurchasePortfolio(cutoff: Day, today: Day)
    ensures PortfolioOf(ExampleFetch(), [ExampleRow()], cutoff, today).Success?
    ensures var s := PortfolioOf(ExampleFetch(), [ExampleRow()], cutoff, today).value;
      s.shares == [Some(4.0)] && Shaped(s.portfolio) && s.portfolio.names == ["PETR4"] &&
      CellOn(s.portfolio, 0, Jan1st2018) == Some(100.0)
  {
    var row := ExampleRow();
    ExampleDict();
    ExamplePrices(today);
    var prices := OnBusinessDays(PriceMatrixOf(ExampleFetch(), [("stocks", ["PETR4"])], Jan1st2018, today).value);
    assert PortfolioOf(ExampleFetch(), [row], cutoff, today) == Mount(prices, [row], cutoff);
    assert IsBusinessDay(row.date);
    SinglePurchaseRoundTrip(prices, row, cutoff);
    assert (row.value as real) / 25.0 == 4.0;
  }

  class Portfolio {
    var wallet: seq<Row>
    var shares: seq<Option<real>>
    var firstDate: Day
    var prices: PriceTable
    var allocations: Table
    var portfolio: Table

    predicate Valid()
      reads this
    {
      Consistent(State())
    }

    function State(): Snapshot
      reads this
    {
      Snapshot(wallet, shares, firstDate, prices, allocations, portfolio)
    }

    /** The ledger, its first date and the prices, before the holdings are mounted. */
    constructor (wallet: seq<Row>, firstDate: Day, prices: PriceTable)
      ensures this.wallet == wallet && this.firstDate == firstDate && this.prices == prices
      ensures shares == [] && allocations == Table([], [], []) && portfolio == Table([], [], [])
    {
      this.wallet := wallet;
      this.firstDate := firstDate;
      this.prices := prices;
      shares := [];
      allocations := Table([], [], []);
      portfolio := Table([], [], []);
    }

    /** `__init__`: first date, prices, holdings, allocations and values, in that order; the first
        step that fails raises its error. */
    static method Create(fetch: Fetcher, ledger: seq<Row>, cutoff: Day, today: Day) returns (r: Result<Portfolio, Error>)
      ensures PortfolioOf(fetch, ledger, cutoff, today).Failure? ==>
        r.Failure? && r.error == PortfolioOf(fetch, ledger, cutoff, today).error
      ensures PortfolioOf(fetch, ledger, cutoff, today).Success? ==>
        r.Success? && fresh(r.value) && r.value.State() == PortfolioOf(fetch, ledger, cutoff, today).value &&
        r.value.Valid()
    {
      if ledger == [] {
        return Failure(EmptyLedger);
      }
      var firstDate := Min(Dates(ledger));
      var pp := PortfolioPrices.New(fetch, SearchDictOf(ledger), Jan1st2018, None, today);
      PortfolioOfUnfold(fetch, ledger, cutoff, today);
      if pp.Failure? {
        return Failure(pp.error);
      }
      var p := new Portfolio(ledger, firstDate, OnBusinessDays(pp.value.portfolioPrices));
      var err := p.MountHoldings(cutoff);
      if err.Some? {
        return Failure(err.value);
      }
      PortfolioOfConsistent(fetch, ledger, cutoff, today);
      r := Success(p);
    }

    /** The steps of `__init__` after the prices are stored: holdings, allocation table, value table,
        each stored in turn; the first that fails raises its error. */
    method MountHoldings(cutoff: Day) returns (err: Option<Error>)
      requires wallet != [] && firstDate == Min(Dates(wallet))
      modifies this`shares, this`allocations, this`portfolio
      ensures Mount(prices, wallet, cutoff).Failure? ==> err == Some(Mount(prices, wallet, cutoff).error)
      ensures Mount(prices, wallet, cutoff).Success? ==> err.None? && State() == Mount(prices, wallet, cutoff).value
    {
      err := MountWalletShares();
      if err.None? {
        err := MountTables(cutoff);
      }
    }

    /** `_get_allocation_time_series`, then `_get_portfolio`, each result stored in turn; the first
        that fails raises its error. */
    method MountTables(cutoff: Day) returns (err: Option<Error>)
      requires |shares| == |wallet|
      modifies this`allocations, this`portfolio
      ensures Tables(prices, wallet, shares, cutoff).Failure? ==> err == Some(Tables(prices, wallet, shares, cutoff).error)
      ensures Tables(prices, wallet, shares, cutoff).Success? ==>
        err.None? && (allocations, portfolio) == Tables(prices, wallet, shares, cutoff).value
    {
      var alloc := AllocationTable(wallet, shares, cutoff);
      if alloc.Failure? {
        return Some(alloc.error);
      }
      allocations := alloc.value;
      var values := PortfolioTable(prices, allocations);
      if values.Failure? {
        return Some(values.error);
      }
      portfolio := values.value;
      err := None;
    }

    /** `_mount_wallet_shares`: the units each row buys, then, asset by asset, each row's running
        total over its own asset's rows. A row whose asset or date has no price raises and leaves the
        holdings as they were. */
    method MountWalletShares() returns (err: Option<Error>)
      modifies this`shares
      ensures Units(prices, wallet).Failure? ==> err == Some(Units(prices, wallet).error) && shares == old(shares)
      ensures Units(prices, wallet).Success? ==> err.None? && shares == CumShares(wallet, Units(prices, wallet).value)
    {
      var units := RowUnits(prices, wallet);
      if units.Failure? {
        return Some(units.error);
      }
      var sh := AccumulateShares(wallet, units.value);
      shares := sh;
      err := None;
    }

    /** `get_patrimony`: the daily sum of the holdings' values from the first ledger date on. */
    function GetPatrimony(): (r: seq<(Day, real)>)
      reads this
      requires Valid()
      ensures forall e :: e in r <==>
        e.0 >= firstDate && exists k :: 0 <= k < |portfolio.index| && e == (portfolio.index[k], SumPresent(RowAt(portfolio, k)))
      ensures forall e :: e in r ==> e.1 >= 0.0
    {
      PatrimonyEntries(portfolio, firstDate);
      PatrimonyNonNegative(portfolio, firstDate);
      Patrimony(portfolio, firstDate)
    }

    /** `get_returns`: the loop over the portfolio's calendar, one weighted change per day; a day
        missing from the price calendar raises. */
    method GetReturns() returns (r: Result<seq<(Day, Option<real>)>, Error>)
      requires Valid()
      ensures r == Returns(prices, portfolio, firstDate)
    {
      var steps := DayReturns(prices, portfolio);
      var rs: seq<(Day, Option<real>)> := [];
      var k := 0;
      while k < |portfolio.index|
        invariant k <= |portfolio.index| && Collect(steps[..k]) == Success(rs)
      {
        CollectStep(steps, k);
        DayReturnOf(prices, portfolio, k);
        var step := ReturnAt(prices, portfolio, k);
        if step.Failure? {
          CollectFailurePrefix(steps, k + 1);
          return Failure(step.error);
        }
        rs := rs + [(portfolio.index[k], step.value)];
        k := k + 1;
      }
      assert steps[..k] == steps;
      r := Success(Since(rs, firstDate));
    }

    /** `get_cumulative_returns`: the returns compounded, sliced from the first ledger date. */
    method GetCumulativeReturns() returns (r: Result<seq<(Day, Option<real>)>, Error>)
      requires Valid()
      ensures Returns(prices, portfolio, firstDate).Failure? ==> r == Failure(Returns(prices, portfolio, firstDate).error)
      ensures Returns(prices, portfolio, firstDate).Success? ==>
        r == Success(CumulativeReturns(Returns(prices, portfolio, firstDate).value, firstDate))
    {
      var rs := GetReturns();
      if rs.Failure? {
        return Failure(rs.error);
      }
      r := Success(CumulativeReturns(rs.value, firstDate));
    }
  }
}
