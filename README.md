# investing-bi valuation and returns engine, in Dafny

This project models the portfolio valuation engine of investing-bi. The engine takes a ledger of
purchases (date, asset name, asset type, invested value) and per-asset daily OHLC prices. From them
it derives:

- the units each purchase bought at that day's close;
- each asset's running total of units;
- a business-day allocation table, forward-filled up to a cutoff date;
- the value of each holding, and its daily sum (the patrimony);
- the value-weighted daily return and its compounding.

It also models how the price matrix is assembled. Per-asset frames are fetched by asset class and
put side by side under a `(field, asset)` header. Field order is fixed as Close, Open, High, Low.
Two variants are modelled: the `PortfolioPrices` class and the older script functions.

Money and prices are exact `real`s. A missing pandas value (NaN) is `Option.None`. Each Python
exception is a `Result.Failure` carrying an `Errors.Error`. Dates are day numbers (day 0 is
1970-01-01). pandas' `'B'` frequency is Monday to Friday, with no holiday calendar.

There are three external inputs, each passed in as a parameter:

- `fetch` is the price source: one call per (class, asset, country, from, to). It returns a frame,
  or `None` when the call raises.
- `today` is the end date of the price window, read from the clock when `PortfolioPrices` is built
  or refreshed.
- `cutoff` is the module-level `TODAY` in `returns.py`, read once when the module loads. It ends the
  allocation calendar.

The script's `end_date` default is a fourth clock, `loadDay`: the date the script module was loaded.

Modules, leaves first:

- `Wrappers`, `Errors`, `Seqs`, `Calendar` hold helpers: Option/Result, the exception kinds,
  sequence utilities, business days and `asfreq('B')`.
- `Frames` holds the pandas column operations: forward fill, `pct_change`, `sum(axis=1)`, weights,
  `cumprod` and label slicing.
- `MultiIndex` builds the header and the matrix. It models `_build_multi_index_tuples` and
  `_build_multi_index_data_frame` in `investing-bi/prices.py`. The script's
  `build_multi_index_tuples` and `build_multi_index_data_frame` have the same text, so the same
  members model them too.
- `Prices` models `PortfolioPrices`. Its `GetAssetsDataFrames` also models the script's
  `get_assets_data_frames`.
- `ScriptPrices` models the script's `get_portfolio_prices`.
- `Holdings` models asset grouping, per-row units and running totals.
- `Allocation` models `_get_allocation_time_series`.
- `Valuation` models `_get_portfolio`, `get_patrimony`, `get_returns` and `get_cumulative_returns`.
- `Portfolios` models the `Portfolio` object and its constructor.

Behaviour of the code worth noting:

- Before an asset's first purchase its allocation is NaN (`None`). Forward fill does not fill
  backward.
- Two ledger rows for the same asset on the same date make `pivot` raise (`DuplicateEntries`).
- A ledger with more than one asset class never gets a price matrix. `*assets` passes one
  sub-header argument per class to a builder that takes exactly one (`WrongArgumentCount`), so
  `Portfolios.MixedLedgerFails` holds.
- The return on the first calendar day is NaN, because its `pct_change` is NaN. So is the return on
  any day when some holding's change is NaN. `cumprod` skips a NaN factor (it counts as 1) and keeps
  NaN in that day's entry.

## Model

| member | source | states |
|---|---|---|
| `MultiIndex.BuildMultiIndexTuples` | investing-bi/prices.py:67-96 | the nested append loops build exactly the header-major cross product, of length \|header\| · \|sub_header\| |
| `MultiIndex.CrossProductAt` | investing-bi/prices.py:90-96 | position i·\|s\| + j of the cross product holds (h[i], s[j]) |
| `MultiIndex.CrossProductMembers` | investing-bi/prices.py:90-96 | every tuple pairs a header entry with a sub-header entry |
| `MultiIndex.DictKeysOfCrossProduct` | investing-bi/prices.py:112 | `dict(tuples).keys()` of a cross product with a non-empty sub-header is the header's distinct entries, in first-appearance order |
| `MultiIndex.OhlcSelectionKeys` | investing-bi/prices.py:112 | with the fixed header the selected fields are exactly Close, Open, High, Low, in that order |
| `MultiIndex.SelectColumnsAt` | investing-bi/prices.py:112 | when every frame has every key, frame j's column for key i sits at position i·\|frames\| + j of the concatenation's selection |
| `MultiIndex.RowUnion` | investing-bi/prices.py:114 | the index of `pd.concat(axis=1)` is increasing and holds exactly the dates that appear in some frame's index: an outer join, each date once |
| `MultiIndex.BuildMultiIndexDataFrame` | investing-bi/prices.py:98-116 | fails with an empty header, an empty sub-header or no frames; when built, its columns are labelled by the cross product, in order, and its index is the union of the frames' dates |
| `MultiIndex.BuildMultiIndexDataFrameSucceeds` | investing-bi/prices.py:98-116 | one frame per sub-header entry, each with all the header fields: the build succeeds, with \|header\|·\|sub_header\| columns labelled by the cross product |
| `MultiIndex.BuildMultiIndexDataFrameColumn` | investing-bi/prices.py:108-116 | after relabelling, column (header[i], sub_header[j]) holds frame j's header[i] column: a frame is paired with the asset at its own position |
| `MultiIndex.BuildOhlcColumn` | investing-bi/prices.py:166-168 | with OHLC frames and the Close/Open/High/Low header, the matrix has 4·N columns and column (field, asset j) is frame j's field |
| `MultiIndex.BuildMultiIndexDataFrameMissingField` | investing-bi/prices.py:112-114 | a frame lacking one of the header fields makes the build fail: a KeyError or a header length mismatch |
| `Prices.Dispatch` | investing-bi/prices.py:134-161 | "stocks", "funds" and "etfs" select the stock, fund and ETF calls, each if and only if the key is that string; any other key selects nothing |
| `Prices.AssetFramesCorrect` | investing-bi/prices.py:54-65 | the frame list exists iff every request succeeds; it then has one frame per asset, in asset order, each requested with the same class, country and window |
| `Prices.AssetFrames` | investing-bi/prices.py:54-65 | one frame per asset when every request succeeds; otherwise the error names an asset whose request returned nothing |
| `Prices.AssetFramesFirstFailure` | investing-bi/prices.py:56-63 | the error raised names the first asset whose request failed |
| `Prices.GetAssetsDataFrames` | investing-bi/prices.py:38-65 | the append loop returns the frame list that `AssetFrames` specifies, or that function's failure |
| `Prices.FetchPortfolioPrices` | investing-bi/prices.py:118-170 | the loop over the search dictionary, then the builder call, returns `PriceMatrixOf` (frames entry by entry, then the arity check) |
| `Prices.PriceMatrixOf` | investing-bi/prices.py:118-170 | a dictionary without exactly one entry never yields a matrix; every column of a built matrix is labelled (OHLC field, asset of that entry) |
| `Prices.PriceMatrixArity` | investing-bi/prices.py:163-168 | a dictionary with zero or with two or more entries never yields a matrix; if its frames were fetched, the error is the wrong argument count |
| `Prices.PriceMatrixUnknownClass` | investing-bi/prices.py:134-168 | an unrecognised class key contributes no frames, so the build fails (empty header or nothing to concatenate) |
| `Prices.PriceMatrixSingleClass` | investing-bi/prices.py:134-168 | one recognised class: the matrix has 4·N columns, and column (field, names[j]) is the frame that class's call returned for names[j], with country "brazil" and the given window |
| `Prices.SingleFrameDict` | investing-bi/prices.py:134-152 | one class holding one asset whose request answers: the frames fetched are that one frame |
| `Prices.SingleFrameMatrix` | investing-bi/prices.py:134-168 | one class holding one asset with an OHLC frame: the matrix rows are exactly the frame's dates and its first column is the asset's close |
| `Prices.PortfolioPrices.New` | investing-bi/prices.py:22-28 | the end date defaults to `today`; the object stores the dictionary and start date, and holds the fetched matrix or raises the fetch's error |
| `Prices.PortfolioPrices.RefreshAssetsPrices` | investing-bi/prices.py:30-33 | refetches with the stored dictionary and start date up to `today` and replaces the matrix; on failure the old matrix stays |
| `Prices.PortfolioPrices.GetPortfolioPrices` | investing-bi/prices.py:35-36 | returns the current matrix unchanged |
| `ScriptPrices.FramesFollowAssets` | portfolio_prices.py:107-116 | the frames come in the order stocks, funds, ETFs, and frame j is the one fetched, with its class's call, for asset j of `[*stocks, *funds, *etfs]` |
| `ScriptPrices.ScriptFramesOhlc` | portfolio_prices.py:107-116 | when every request returns an OHLC frame, every concatenated frame is OHLC and frame j is asset j's |
| `ScriptPrices.GetPortfolioPrices` | portfolio_prices.py:92-124 | with no assets at all the build fails; a built matrix has four columns per asset |
| `ScriptPrices.GetPortfolioPricesSucceeds` | portfolio_prices.py:92-124 | with every request answered, the result is the build over the class-ordered frames under the sub-header `stocks + funds + etfs`, with 4·(\|stocks\|+\|funds\|+\|etfs\|) columns; the window ends at `end_date` or the load date |
| `ScriptPrices.GetPortfolioPricesNoAssets` | portfolio_prices.py:114-121 | with no assets at all the header is empty and the build fails |
| `Holdings.AssetsByType` | investing-bi/returns.py:86-94 | None iff no row has the type; otherwise the asset names of that type, each once |
| `Holdings.SearchDictOfEntries` | investing-bi/returns.py:96-111 | the search dictionary has one entry per type present, keyed 'funds', 'stocks' or 'etfs', with that type's asset set |
| `Holdings.SearchDictOf` | investing-bi/returns.py:96-111 | at most three entries, each keyed 'funds', 'stocks' or 'etfs' and listing at least one asset |
| `Holdings.SearchDictKeysDispatch` | investing-bi/returns.py:96-111 | every key of the dictionary is one the price fetch recognises |
| `Holdings.TwoTypesTwoEntries` | investing-bi/returns.py:100-111 | a ledger with two asset types yields at least two dictionary entries |
| `Holdings.OnBusinessDays` | investing-bi/returns.py:113-114 | `asfreq('B')` gives the price table an increasing calendar of business days |
| `Holdings.CloseColumn` | investing-bi/returns.py:128 | `prices['Close'][asset]` is absent iff no column is labelled ('Close', asset); otherwise it is such a column |
| `Holdings.UnitsCorrect` | investing-bi/returns.py:122-130 | the units exist iff every row's asset has a close column and every row's date is on the calendar (no fallback); then row i's units are its value over its own asset's close on its own date |
| `Holdings.Unit` | investing-bi/returns.py:124-130 | a row raises iff its asset has no close column or its date is off the calendar; the units it buys are positive |
| `Holdings.Units` | investing-bi/returns.py:120-132 | when no row raises, one entry per row, and every present entry is positive |
| `Holdings.CumShares` | investing-bi/returns.py:134-137 | one entry per row, NaN exactly where the row's units are NaN |
| `Holdings.CumSharesNonNegative` | investing-bi/returns.py:134-137 | with positive units, no running total is negative |
| `Holdings.UnitRoundTrip` | investing-bi/returns.py:128 | a row with a close P buys value / P units, and P times those units is the value again |
| `Holdings.RowUnits` | investing-bi/returns.py:120-132 | the first loop computes exactly `Units`, aborting at the first row that raises |
| `Holdings.AccumulateAsset` | investing-bi/returns.py:134-137 | one pass of the per-asset `cumsum`: that asset's rows take their running totals, and every other row is unchanged |
| `Holdings.AccumulateShares` | investing-bi/returns.py:134-137 | the loop over the distinct assets leaves every row with its asset's running total, i.e. exactly `CumShares` |
| `Holdings.CumSharesMonotone` | investing-bi/returns.py:134-137 | with positive units, a later row of the same asset holds strictly more shares |
| `Holdings.CumSharesCoverOwnUnits` | investing-bi/returns.py:134-137 | each row's shares are at least the units it bought |
| `Holdings.CumSharesOwnAsset` | investing-bi/returns.py:134-137 | a row's shares depend only on the units of its own asset's rows |
| `Holdings.CumSharesStep` | investing-bi/returns.py:134-137 | a row's shares are the previous same-asset row's shares plus its own units |
| `Holdings.CumSharesFirst` | investing-bi/returns.py:134-137 | an asset's first priced row holds just the units it bought |
| `Allocation.PivotCellOfRow` | investing-bi/returns.py:141-142 | with no duplicate (asset, date), the pivoted cell at a row's own asset and date is that row's shares |
| `Allocation.AllocationIndexSpan` | investing-bi/returns.py:141-150 | the calendar is every business day from the first ledger date to the later of the last ledger date and the cutoff; it fails iff the ledger's span holds no business day |
| `Allocation.AllocationIndex` | investing-bi/returns.py:144-150 | when it exists, the allocation calendar is strictly increasing |
| `Allocation.AllocationTable` | investing-bi/returns.py:139-155 | when it exists, the table is rectangular and its calendar is strictly increasing |
| `Allocation.AllocationTableShape` | investing-bi/returns.py:139-155 | the table exists iff no asset has two rows on one date and the calendar exists; its columns are the ledger's asset names, sorted, each once |
| `Allocation.AllocationAt` | investing-bi/returns.py:152-153 | forward fill: on day k, an asset's allocation is the shares of its latest row dated on or before day k |
| `Allocation.PivotCellQuiet` | investing-bi/returns.py:140-141 | a day on which no row of the asset with shares is dated pivots to NaN |
| `Allocation.AllocationBeforeFirst` | investing-bi/returns.py:152-153 | before an asset's first row with shares, its allocation is NaN: nothing is filled backward |
| `Allocation.AllocationNonNegative` | investing-bi/returns.py:152-153 | every allocation is some row's shares, so non-negative shares give non-negative allocations |
| `Allocation.AllocationTableNonNegative` | investing-bi/returns.py:139-155 | non-negative shares give an allocation table with no negative cell |
| `Valuation.PortfolioTableShape` | investing-bi/returns.py:157-162 | the value table exists iff every allocated asset has a close column; its calendar is `asfreq('B')` of both indices; a missing asset is the error |
| `Valuation.PortfolioTable` | investing-bi/returns.py:157-162 | when it exists, the value table is rectangular with the allocation's asset columns |
| `Valuation.PortfolioIndexSpan` | investing-bi/returns.py:160 | the value calendar is increasing and holds every business day of either index, and only business days between their extremes |
| `Valuation.PortfolioValueAt` | investing-bi/returns.py:159-160 | on a day with a close price and an allocation, the holding's value is close × allocation |
| `Valuation.PortfolioCarried` | investing-bi/returns.py:160 | on a day when the close or the allocation is NaN, the previous day's value is carried forward |
| `Valuation.PortfolioNonNegative` | investing-bi/returns.py:159-160 | with non-negative allocations, no holding is worth less than zero |
| `Valuation.WorthNonNegative` | investing-bi/returns.py:159 | a non-negative number of units at a positive close is worth nothing negative |
| `Valuation.PortfolioTableNonNegative` | investing-bi/returns.py:157-162 | an allocation table with no negative cell gives a value table with no negative cell |
| `Valuation.PatrimonyEntries` | investing-bi/returns.py:26-30 | the patrimony lists exactly the calendar days from the first ledger date on, each with its row sum |
| `Valuation.Patrimony` | investing-bi/returns.py:26-30 | no more entries than calendar days, each dated on the calendar and no earlier than the first ledger date |
| `Valuation.PatrimonySuffix` | investing-bi/returns.py:30 | on an increasing calendar, slicing from the first date is a suffix of the daily totals |
| `Frames.SinceSplit` | investing-bi/returns.py:30 | on increasing dates, `series[d:]` is the suffix that starts at the first entry not earlier than d, and every entry before it is earlier than d |
| `Valuation.PatrimonyNonNegative` | investing-bi/returns.py:28-30 | with no negative holding, patrimony is never negative |
| `Frames.WeightsSumToOne` | investing-bi/returns.py:34-35 | on a day of positive patrimony the weights sum to 1, NaN values counting as weight 0 |
| `Frames.WeightsOfZeroTotal` | investing-bi/returns.py:34-35 | on a day of zero patrimony every weight is 0 (0/0 filled with 0) |
| `Frames.Weights` | investing-bi/returns.py:34-35 | one weight per holding, and a NaN holding has weight 0 (`fillna(0)`) |
| `Frames.FFillStep` | investing-bi/returns.py:152-153 | forward fill keeps a present value and otherwise repeats the previous entry |
| `Frames.FFillSource` | investing-bi/returns.py:152-153 | every filled entry is a value present at the same or an earlier position |
| `Frames.FFill` | investing-bi/returns.py:152-153 | same length as the column, and every present value is kept where it is |
| `Frames.PctChangeAt` | investing-bi/returns.py:42 | between two present closes, the change is now / before − 1 |
| `Frames.PctChange` | investing-bi/returns.py:42 | same length as the column, with NaN on the first row |
| `Frames.SumPresentOfNaN` | investing-bi/returns.py:30 | a row with no value present sums to 0 (`sum(axis=1)` skips NaN) |
| `Valuation.Dot` | investing-bi/returns.py:41-42 | the weighted change is a number iff every asset's change is |
| `Valuation.ReturnAtDefined` | investing-bi/returns.py:40-42 | a day's return exists iff the day is on the price calendar and every holding has a close column; it is a number iff every holding's change is |
| `Valuation.ReturnAt` | investing-bi/returns.py:38-42 | a day missing from the price calendar raises the date's KeyError; a numeric return needs every holding's close column |
| `Valuation.ReturnAtUniform` | investing-bi/returns.py:34-42 | on a day of positive patrimony, if every holding changes by x then the return is x |
| `Valuation.ReturnAtZeroPatrimony` | investing-bi/returns.py:34-42 | on a day of zero patrimony the return is 0 |
| `Valuation.ReturnAtBalanced` | investing-bi/returns.py:34-42 | two holdings of equal value moving by +x and −x give a return of 0 |
| `Valuation.PositionalAgrees` | investing-bi/returns.py:41-42 | when the close columns list the holdings in the value table's order, the positional `np.dot` equals the by-name return |
| `Valuation.PositionalMisweighs` | investing-bi/returns.py:41-42 | with closes ordered B, A and holdings sorted A, B, the positional product gives −35% where the by-name return is −5% |
| `Valuation.ReturnsDefined` | investing-bi/returns.py:32-44 | the returns exist iff every calendar day's return does; otherwise the error is the first failing day's |
| `Valuation.ReturnsEntries` | investing-bi/returns.py:37-44 | the returns are exactly the calendar days from the first ledger date on, each with that day's return |
| `Valuation.ReturnsInOrder` | investing-bi/returns.py:40-44 | the returns are in calendar order |
| `Valuation.Returns` | investing-bi/returns.py:32-44 | every reported return is dated no earlier than the first ledger date |
| `Frames.CumProdAt` | investing-bi/returns.py:50 | entry k of `cumprod` is the product of (1 + r) over the first k + 1 returns, NaN where that day's return is NaN |
| `Frames.CumProd` | investing-bi/returns.py:50 | one entry per return, NaN exactly where the return is NaN |
| `Frames.CumProdRestart` | investing-bi/returns.py:48-52 | compounding a sliced series equals compounding the whole and then slicing, provided the growth before the cut is 1 |
| `Valuation.CumulativeReturnsAt` | investing-bi/returns.py:46-52 | the cumulative returns restart at the first ledger date: entry k is the growth over the first k + 1 reported returns, and the second slice changes nothing |
| `Valuation.CompoundedSince` | investing-bi/returns.py:46-52 | compounding keeps the days, so a series already sliced from the first date is not cut again |
| `Valuation.CumulativeReturns` | investing-bi/returns.py:46-52 | no more entries than returns, each dated on a return's day and no earlier than the first ledger date |
| `Portfolios.MixedLedgerFails` | investing-bi/returns.py:100-116 | a ledger holding two asset types never yields a `Portfolio` |
| `Portfolios.PortfolioOf` | investing-bi/returns.py:13-24 | an empty ledger raises; a built portfolio keeps the ledger, has one share entry per row, and its first date is one of the ledger's dates |
| `Portfolios.Mount` | investing-bi/returns.py:20-24 | the steps after the price fetch keep the ledger and prices, with the earliest ledger date as first date |
| `Portfolios.Tables` | investing-bi/returns.py:22-24 | allocation then value table: when both succeed, both are rectangular and carry the same asset columns |
| `Portfolios.PortfolioOfSteps` | investing-bi/returns.py:13-24 | a built portfolio's units are positive, and its shares, allocations and values are those the steps compute from them |
| `Portfolios.PortfolioOfConsistent` | investing-bi/returns.py:13-24 | a built portfolio has aligned shares, the earliest ledger date as its first date, increasing calendars, the same asset columns in both tables, and no negative holding, allocation or value |
| `Portfolios.PortfolioSharesGrow` | investing-bi/returns.py:118-137 | in a built portfolio, an asset's holdings grow strictly from one of its priced rows to a later one |
| `Portfolios.PortfolioPatrimonyNonNegative` | investing-bi/returns.py:26-30 | a built portfolio never reports a negative patrimony |
| `Portfolios.SinglePurchaseShares` | investing-bi/returns.py:122-137 | a single purchase of A at close P holds A / P shares |
| `Portfolios.SingleRowAllocation` | investing-bi/returns.py:139-155 | a single row on a business day gives an allocation table whose one column is that row's asset, holding that row's shares on its date |
| `Portfolios.HoldingValueOn` | investing-bi/returns.py:157-162 | on a business day with a close and an allocation, the value table holds close × allocation for that day |
| `Portfolios.SinglePurchaseRoundTrip` | investing-bi/returns.py:128-162 | one purchase of A at close P on business day D: the allocation on D is A / P, and the holding is worth P·(A/P) = A on D |
| `Portfolios.ExampleDict` | investing-bi/returns.py:96-111 | a one-stock ledger gives the dictionary {'stocks': [PETR4]} |
| `Portfolios.ExampleFrames` | investing-bi/prices.py:134-161 | its one stock request returns its one frame |
| `Portfolios.ExampleMatrix` | investing-bi/prices.py:163-170 | the matrix is indexed by that one day, with PETR4's close as its first column |
| `Portfolios.ExamplePrices` | investing-bi/returns.py:113-114 | after `asfreq('B')`, PETR4 closes at 25 on 1 January 2018 |
| `Portfolios.SingleFrameClose` | investing-bi/returns.py:113-114 | one asset priced on business day D alone: after `asfreq('B')` its close on D is the one fetched |
| `Portfolios.SingleDayClose` | investing-bi/returns.py:113-114 | prices recorded on one business day only: that day is on the calendar and keeps its close |
| `Portfolios.OnePurchasePortfolio` | investing-bi/returns.py:13-24 | the constructor succeeds on a concrete ledger: 100 at 25 buys 4 shares, worth 100 on the purchase day |
| `Portfolios.Portfolio.Create` | investing-bi/returns.py:13-24 | the constructor stores the state `PortfolioOf` describes, or raises the first failing step's error |
| `Portfolios.Portfolio.MountHoldings` | investing-bi/returns.py:20-24 | holdings, allocations and values are stored as `Mount` computes them, or the first failing step's error is raised |
| `Portfolios.Portfolio.MountTables` | investing-bi/returns.py:22-24 | the allocation table and then the value table are stored as `Tables` computes them, or the first failing step's error is raised |
| `Portfolios.Portfolio.MountWalletShares` | investing-bi/returns.py:118-137 | `shares` becomes the per-asset running total of each row's units; a row that raises leaves it unchanged |
| `Portfolios.Portfolio.GetPatrimony` | investing-bi/returns.py:26-30 | every entry is a calendar day from the first date on with its row sum, every such day appears, and no entry is negative |
| `Portfolios.Portfolio.GetReturns` | investing-bi/returns.py:32-44 | the day loop returns `Returns` (the by-name weighted change per day, sliced), or the first failing day's error |
| `Portfolios.Portfolio.GetCumulativeReturns` | investing-bi/returns.py:46-52 | the compounded returns, sliced from the first date, or the returns' error |

## Findings

| source | as written | input that shows it | evidently intended | confidence | as-written member | corrected member |
|---|---|---|---|---|---|---|
| investing-bi/returns.py:41-42 | `np.dot` pairs `prices['Close'].pct_change()` and the weight row by position. The close columns follow the price matrix's asset order, and the weight columns follow `pivot`'s sorted order | close columns in the order B, A; holdings A (worth 3) and B (worth 1); A rises 10% and B falls 50%. The code gives −35% | each weight is multiplied by its own asset's change, giving −5% | not executed | `Valuation.ReturnAtPositional` (shown by `Valuation.PositionalMisweighs`) | `Valuation.ReturnAt` (proved by `Valuation.PositionalAgrees`, `Valuation.ReturnAtUniform` and `Valuation.ReturnAtBalanced`; used by `Portfolios.Portfolio.GetReturns`) |

## Left out

- Fetching the ledger (`_get_wallet`: an HTTP request for a Google Sheet and CSV decoding) and
  building its frame (`_mount_wallet_data_frame`: `pd.to_datetime` date parsing) are network I/O and
  text parsing. The ledger is given as a sequence of typed rows with positive values.
- `investing-bi/utils.py`, `utils.py` and `investing-bi/metrics.py` are thin wrappers over I/O or
  over a library whose code is not part of this model.
- The investpy historical-data calls are the `fetch` parameter. A call that raises is `None`.
  Prices are assumed positive, which rules out division by zero.
- Clock reads (`datetime.today()` and the module-level `today`/`TODAY`) are parameters.
- IEEE floating-point rounding: all arithmetic is exact `real`. The `astype(np.float64)` cast is
  the identity.
- pandas' chained assignment in `get_returns` (`returns['Returns'].loc[time] = …`) is modelled as
  the intended write into the series. Whether pandas propagates that write back is not modelled.
- pandas' `pivot` duplicate check is modelled only as its outcome, an error.
- Holiday calendars are not modelled. `asfreq('B')` gives every Monday to Friday between the
  earliest and latest date of the index that `pd.concat(axis=1)` builds (the outer join of the
  frames' dates).
- `Holdings.AssetsByType`: a Python `set` has no defined order. The model lists the names in
  first-appearance order. `*assets` iterates the same set for both the frames and the sub-header,
  so any fixed order gives the same pairing of frames with assets.
- `ScriptPrices.GetPortfolioPrices`: the load-date default of `end_date` is stated by the
  `EndDate` function it uses. There is no separate lemma for it.
