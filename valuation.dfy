/** `_get_portfolio`, `get_patrimony`, `get_returns` and `get_cumulative_returns`: the value of each
    holding per business day, the daily total, the weighted daily return and its compounding. */
module Valuation {
  import opened Wrappers
  import opened Errors
  import opened Seqs
  import opened Calendar
  import opened Frames
  import opened MultiIndex
  import opened Holdings
  import opened Allocation

  /** The first of `names` that has no close column in the prices. */
  function FirstUnpriced(prices: PriceTable, names: seq<string>): (r: Option<nat>)
    ensures r.None? <==> forall c :: 0 <= c < |names| ==> CloseColumn(prices.columns, names[c]).Some?
    ensures r.Some? ==> r.value < |names| && CloseColumn(prices.columns, names[r.value]).None?
  {
    if names == [] then None
    else if CloseColumn(prices.columns, names[0]).None? then Some(0)
    else
      var r := FirstUnpriced(prices, names[1..]);
      assert forall c :: 1 <= c < |names| ==> names[1..][c - 1] == names[c];
      if r.None? then None else Some(r.value + 1)
  }

  /** The entry of column c on day d (`df[name].loc[d]` after alignment); NaN off the table's calendar. */
  function CellOn(t: Table, c: nat, d: Day): Option<real>
    requires Shaped(t) && c < |t.names|
  {
    match IndexOf(t.index, d)
    case None => None
    case Some(k) => t.cols[c][k]
  }

  /** One cell of `close * allocations`: NaN unless both factors are present. */
  function Worth(close: Option<Price>, units: Option<real>): Option<real> {
    if close.Some? && units.Some? then Some((close.value as real) * units.value) else None
  }

  /** The calendar `asfreq('B')` gives the product, whose index is the union of the two. */
  function PortfolioIndex(prices: PriceTable, alloc: Table): seq<Day> {
    AsFreqB(prices.index + alloc.index)
  }

  /** Column c of the product, read on `index`, before the fill. */
  function WorthColumn(prices: PriceTable, alloc: Table, c: nat, index: seq<Day>): (r: seq<Option<real>>)
    requires Shaped(alloc) && c < |alloc.names|
    ensures |r| == |index|
    ensures forall k :: 0 <= k < |index| ==>
      r[k] == Worth(CloseOn(prices, alloc.names[c], index[k]), CellOn(alloc, c, index[k]))
  {
    seq(|index|, k requires 0 <= k < |index| =>
      Worth(CloseOn(prices, alloc.names[c], index[k]), CellOn(alloc, c, index[k])))
  }

  /** `_get_portfolio`: the close of every allocated asset (an asset without one raises) times its
      allocation, on the business-day calendar of both, forward-filled. */
  function PortfolioTable(prices: PriceTable, alloc: Table): (r: Result<Table, Error>)
    requires Shaped(alloc)
    ensures r.Success? ==> Shaped(r.value) && r.value.names == alloc.names
  {
    var missing := FirstUnpriced(prices, alloc.names);
    if missing.Some? then Failure(UnknownAsset(alloc.names[missing.value]))
    else
      var index := PortfolioIndex(prices, alloc);
      Success(Table(index, alloc.names,
        seq(|alloc.names|, c requires 0 <= c < |alloc.names| => FFill(WorthColumn(prices, alloc, c, index)))))
  }

  /** The product exists exactly when every allocated asset has a close column, and then has the
      product calendar; an asset without one is the error. */
  lemma PortfolioTableShape(prices: PriceTable, alloc: Table)
    requires Shaped(alloc)
    ensures PortfolioTable(prices, alloc).Success? <==>
      forall c :: 0 <= c < |alloc.names| ==> CloseColumn(prices.columns, alloc.names[c]).Some?
    ensures PortfolioTable(prices, alloc).Failure? ==>
      exists c :: 0 <= c < |alloc.names| && CloseColumn(prices.columns, alloc.names[c]).None? &&
        PortfolioTable(prices, alloc).error == UnknownAsset(alloc.names[c])
    ensures PortfolioTable(prices, alloc).Success? ==> PortfolioTable(prices, alloc).value.index == PortfolioIndex(prices, alloc)
  {
    var missing := FirstUnpriced(prices, alloc.names);
    if missing.Some? {
      assert PortfolioTable(prices, alloc).error == UnknownAsset(alloc.names[missing.value]);
    }
  }

  /** The product calendar is increasing, holds every business day of either index, and only
      business days lying between two of their days. */
  lemma PortfolioIndexSpan(prices: PriceTable, alloc: Table)
    ensures Increasing(PortfolioIndex(prices, alloc))
    ensures forall d :: (d in prices.index || d in alloc.index) && IsBusinessDay(d) ==> d in PortfolioIndex(prices, alloc)
    ensures forall d :: d in PortfolioIndex(prices, alloc) ==>
      IsBusinessDay(d) && exists lo, hi :: lo in prices.index + alloc.index && hi in prices.index + alloc.index && lo <= d <= hi
  {
    var labels := prices.index + alloc.index;
    if labels != [] {
      var lo, hi := Min(labels), Max(labels);
      forall d | (d in prices.index || d in alloc.index) && IsBusinessDay(d) ensures d in PortfolioIndex(prices, alloc) {
        assert d in labels;
      }
      forall d | d in PortfolioIndex(prices, alloc)
        ensures IsBusinessDay(d) && exists lo, hi :: lo in labels && hi in labels && lo <= d <= hi
      {
        assert lo in labels && hi in labels && lo <= d <= hi;
      }
    }
  }

  /** Column c of the product is the forward fill of the cell-wise products. */
  lemma PortfolioColumnOf(prices: PriceTable, alloc: Table, t: Table, c: nat)
    requires Shaped(alloc) && PortfolioTable(prices, alloc) == Success(t) && c < |t.names|
    ensures t.names == alloc.names && Shaped(t)
    ensures t.cols[c] == FFill(WorthColumn(prices, alloc, c, t.index))
  {
  }

  lemma ProductNonNegative(p: real, u: real)
    requires p > 0.0 && u >= 0.0
    ensures p * u >= 0.0
  {
  }

  /** On a calendar day with a close price p and an allocation u, the holding is worth p * u. */
  lemma PortfolioValueAt(prices: PriceTable, alloc: Table, t: Table, c: nat, k: nat)
    requires Shaped(alloc) && PortfolioTable(prices, alloc) == Success(t) && c < |t.names| && k < |t.index|
    requires CloseOn(prices, t.names[c], t.index[k]).Some? && CellOn(alloc, c, t.index[k]).Some?
    ensures t.cols[c][k] == Worth(CloseOn(prices, t.names[c], t.index[k]), CellOn(alloc, c, t.index[k]))
    ensures t.cols[c][k].Some?
  {
    PortfolioColumnOf(prices, alloc, t, c);
    var w := WorthColumn(prices, alloc, c, t.index);
    assert w[..k + 1][k] == w[k];
    assert t.cols[c][k] == Latest(w[..k + 1]);
  }

  /** On a calendar day where the close or the allocation is NaN, the previous day's value is kept. */
  lemma PortfolioCarried(prices: PriceTable, alloc: Table, t: Table, c: nat, k: nat)
    requires Shaped(alloc) && PortfolioTable(prices, alloc) == Success(t) && c < |t.names| && 0 < k < |t.index|
    requires CloseOn(prices, t.names[c], t.index[k]).None? || CellOn(alloc, c, t.index[k]).None?
    ensures t.cols[c][k] == t.cols[c][k - 1]
  {
    PortfolioColumnOf(prices, alloc, t, c);
    FFillStep(WorthColumn(prices, alloc, c, t.index), k);
  }

  /** With no negative allocation, no holding is worth less than zero. */
  lemma PortfolioNonNegative(prices: PriceTable, alloc: Table, t: Table, c: nat, k: nat)
    requires Shaped(alloc) && PortfolioTable(prices, alloc) == Success(t) && c < |t.names| && k < |t.index|
    requires forall k' :: 0 <= k' < |alloc.index| && alloc.cols[c][k'].Some? ==> alloc.cols[c][k'].value >= 0.0
    requires t.cols[c][k].Some?
    ensures t.cols[c][k].value >= 0.0
  {
    PortfolioColumnOf(prices, alloc, t, c);
    var m := FFillSource(WorthColumn(prices, alloc, c, t.index), k);
    WorthNonNegative(prices, alloc, c, t.index[m]);
  }

  /** A holding of non-negative units at a positive close is worth nothing negative. */
  lemma WorthNonNegative(prices: PriceTable, alloc: Table, c: nat, d: Day)
    requires Shaped(alloc) && c < |alloc.names|
    requires forall k :: 0 <= k < |alloc.index| && alloc.cols[c][k].Some? ==> alloc.cols[c][k].value >= 0.0
    requires Worth(CloseOn(prices, alloc.names[c], d), CellOn(alloc, c, d)).Some?
    ensures Worth(CloseOn(prices, alloc.names[c], d), CellOn(alloc, c, d)).value >= 0.0
  {
    var a := CellOn(alloc, c, d);
    assert a.value >= 0.0 by {
      assert a == alloc.cols[c][IndexOf(alloc.index, d).value];
    }
    ProductNonNegative(CloseOn(prices, alloc.names[c], d).value as real, a.value);
  }

  /** Non-negative allocations give a value table with no negative cell. */
  lemma PortfolioTableNonNegative(prices: PriceTable, alloc: Table, t: Table)
    requires Shaped(alloc) && CellsNonNegative(alloc) && PortfolioTable(prices, alloc) == Success(t)
    ensures Shaped(t) && CellsNonNegative(t)
  {
    forall c, k | 0 <= c < |t.names| && 0 <= k < |t.index| && t.cols[c][k].Some? ensures t.cols[c][k].value >= 0.0 {
      PortfolioNonNegative(prices, alloc, t, c, k);
    }
  }

  /** Every day's total over the holdings present (`sum(axis=1)`). */
  function RowSums(t: Table): (r: seq<(Day, real)>)
    requires Shaped(t)
    ensures |r| == |t.index| && forall k :: 0 <= k < |t.index| ==> r[k] == (t.index[k], SumPresent(RowAt(t, k)))
  {
    seq(|t.index|, k requires 0 <= k < |t.index| => (t.index[k], SumPresent(RowAt(t, k))))
  }

  /** `get_patrimony`: the daily totals from the first ledger date on. */
  function Patrimony(t: Table, first: Day): (r: seq<(Day, real)>)
    requires Shaped(t)
    ensures |r| <= |t.index| && forall e :: e in r ==> e.0 >= first && e.0 in t.index
  {
    Since(RowSums(t), first)
  }

  /** The patrimony reports exactly the calendar days from `first` on, each with its day's total. */
  lemma PatrimonyEntries(t: Table, first: Day)
    requires Shaped(t)
    ensures forall e :: e in Patrimony(t, first) <==>
      e.0 >= first && exists k :: 0 <= k < |t.index| && e == (t.index[k], SumPresent(RowAt(t, k)))
  {
    var s := RowSums(t);
    forall e | e in s ensures exists k :: 0 <= k < |t.index| && e == (t.index[k], SumPresent(RowAt(t, k))) {
      var k :| 0 <= k < |s| && s[k] == e;
    }
  }

  /** On an increasing calendar the patrimony is the suffix of the daily totals from `first` on. */
  lemma PatrimonySuffix(t: Table, first: Day) returns (k: nat)
    requires Shaped(t) && Increasing(t.index)
    ensures k <= |t.index| && Patrimony(t, first) == RowSums(t)[k..]
    ensures forall i :: 0 <= i < k ==> t.index[i] < first
    ensures forall i :: k <= i < |t.index| ==> t.index[i] >= first
  {
    var s := RowSums(t);
    assert DatesIncreasing(s);
    k := SinceSplit(s, first);
  }

  /** With no holding worth less than zero, no day's patrimony is negative. */
  lemma PatrimonyNonNegative(t: Table, first: Day)
    requires Shaped(t)
    requires forall c, k :: 0 <= c < |t.names| && 0 <= k < |t.index| && t.cols[c][k].Some? ==> t.cols[c][k].value >= 0.0
    ensures forall e :: e in Patrimony(t, first) ==> e.1 >= 0.0
  {
    var s := RowSums(t);
    forall e | e in s ensures e.1 >= 0.0 {
      var k :| 0 <= k < |s| && s[k] == e;
      SumPresentNonNegative(RowAt(t, k));
    }
  }

  /** `np.dot` of a row of changes with a row of weights: NaN as soon as one change is NaN. */
  function Dot(ps: seq<Option<real>>, ws: seq<real>): (r: Option<real>)
    requires |ps| == |ws|
    ensures r.Some? <==> forall i :: 0 <= i < |ps| ==> ps[i].Some?
  {
    if ps == [] then Some(0.0)
    else
      var rest := Dot(ps[1..], ws[1..]);
      assert forall i :: 1 <= i < |ps| ==> ps[1..][i - 1] == ps[i];
      if ps[0].Some? && rest.Some? then Some(ps[0].value * ws[0] + rest.value) else None
  }

  /** When every asset changes by the same x, the weighted change is x times the total weight. */
  lemma {:induction false} DotUniform(ps: seq<Option<real>>, ws: seq<real>, x: real)
    requires |ps| == |ws| && forall i :: 0 <= i < |ps| ==> ps[i] == Some(x)
    ensures Dot(ps, ws).Some? && Dot(ps, ws).value == x * Sum(ws)
  {
    if ps != [] {
      assert ps[0] == Some(x);
      DotUniform(ps[1..], ws[1..], x);
      assert Dot(ps, ws).value == ps[0].value * ws[0] + Dot(ps[1..], ws[1..]).value;
      Distributes(x, ws[0], Sum(ws[1..]));
    }
  }

  lemma Distributes(x: real, a: real, b: real)
    ensures x * (a + b) == x * a + x * b
  {
  }

  /** The close columns of the price matrix in its column order (`prices['Close']`), by asset. */
  function Closes(columns: seq<(Label, Column)>): (r: seq<(string, Column)>)
    ensures forall e :: e in r <==> (("Close", e.0), e.1) in columns
  {
    if columns == [] then []
    else
      assert forall e :: e in columns <==> e == columns[0] || e in columns[1..];
      (if columns[0].0.0 == "Close" then [(columns[0].0.1, columns[0].1)] else []) + Closes(columns[1..])
  }

  /** A close column read on the price calendar: NaN on a day it has no price for. */
  function OnCalendar(index: seq<Day>, col: Column): (r: seq<Option<Price>>)
    ensures |r| == |index|
    ensures forall k :: 0 <= k < |index| ==> r[k] == if index[k] in col then Some(col[index[k]]) else None
  {
    seq(|index|, k requires 0 <= k < |index| => if index[k] in col then Some(col[index[k]]) else None)
  }

  /** `prices['Close'].pct_change().loc[index[m]]`: the change of every close column, in matrix order. */
  function PctRow(prices: PriceTable, m: nat): (r: seq<Option<real>>)
    requires m < |prices.index|
    ensures |r| == |Closes(prices.columns)|
    ensures forall c :: 0 <= c < |r| ==> r[c] == PctChange(OnCalendar(prices.index, Closes(prices.columns)[c].1))[m]
  {
    var closes := Closes(prices.columns);
    seq(|closes|, c requires 0 <= c < |closes| => PctChange(OnCalendar(prices.index, closes[c].1))[m])
  }

  /** The change of every one of `names` on calendar day m, found by asset name. */
  function PctRowByName(prices: PriceTable, names: seq<string>, m: nat): (r: Result<seq<Option<real>>, Error>)
    requires m < |prices.index|
    ensures r.Success? <==> forall c :: 0 <= c < |names| ==> CloseColumn(prices.columns, names[c]).Some?
    ensures r.Success? ==> |r.value| == |names| && forall c :: 0 <= c < |names| ==>
      r.value[c] == PctChange(OnCalendar(prices.index, CloseColumn(prices.columns, names[c]).value))[m]
  {
    var missing := FirstUnpriced(prices, names);
    if missing.Some? then Failure(UnknownAsset(names[missing.value]))
    else
      Success(seq(|names|, c requires 0 <= c < |names| =>
        PctChange(OnCalendar(prices.index, CloseColumn(prices.columns, names[c]).value))[m]))
  }

  /** One step of `get_returns` as written: the change row of `prices['Close']` in matrix order
      dotted positionally with the weight row in the portfolio's (sorted) column order. */
  function ReturnAtPositional(prices: PriceTable, t: Table, k: nat): Result<Option<real>, Error>
    requires Shaped(t) && k < |t.index|
  {
    match IndexOf(prices.index, t.index[k])
    case None => Failure(DateNotInIndex(t.index[k]))
    case Some(m) =>
      var pct := PctRow(prices, m);
      var w := Weights(RowAt(t, k));
      if |pct| != |w| then Failure(ShapesNotAligned(|pct|, |w|)) else Success(Dot(pct, w))
  }

  /** One step of `get_returns` as intended: each holding's weight times its own asset's change. */
  function ReturnAt(prices: PriceTable, t: Table, k: nat): (r: Result<Option<real>, Error>)
    requires Shaped(t) && k < |t.index|
    ensures t.index[k] !in prices.index ==> r == Failure(DateNotInIndex(t.index[k]))
    ensures r.Success? && r.value.Some? ==> forall c :: 0 <= c < |t.names| ==> CloseColumn(prices.columns, t.names[c]).Some?
  {
    match IndexOf(prices.index, t.index[k])
    case None => Failure(DateNotInIndex(t.index[k]))
    case Some(m) =>
      var pct :- PctRowByName(prices, t.names, m);
      Success(Dot(pct, Weights(RowAt(t, k))))
  }

  /** The day's return exists exactly when the day is on the price calendar and every holding has a
      close column; it is a number exactly when every holding's change is. */
  lemma ReturnAtDefined(prices: PriceTable, t: Table, k: nat)
    requires Shaped(t) && k < |t.index|
    ensures ReturnAt(prices, t, k).Success? <==>
      t.index[k] in prices.index && forall c :: 0 <= c < |t.names| ==> CloseColumn(prices.columns, t.names[c]).Some?
    ensures ReturnAt(prices, t, k).Success? ==>
      (ReturnAt(prices, t, k).value.Some? <==>
        forall c :: 0 <= c < |t.names| ==> PctRowByName(prices, t.names, IndexOf(prices.index, t.index[k]).value).value[c].Some?)
  {
    var i := IndexOf(prices.index, t.index[k]);
    if i.Some? {
      var pct := PctRowByName(prices, t.names, i.value);
      if pct.Success? {
        assert ReturnAt(prices, t, k) == Success(Dot(pct.value, Weights(RowAt(t, k))));
        assert PctRowByName(prices, t.names, IndexOf(prices.index, t.index[k]).value) == pct;
      }
    }
  }

  /** On a day of positive patrimony when every holding changes by the same x, the return is x. */
  lemma ReturnAtUniform(prices: PriceTable, t: Table, k: nat, m: nat, x: real)
    requires Shaped(t) && k < |t.index| && IndexOf(prices.index, t.index[k]) == Some(m)
    requires PctRowByName(prices, t.names, m).Success? && SumPresent(RowAt(t, k)) > 0.0
    requires forall c :: 0 <= c < |t.names| ==> PctRowByName(prices, t.names, m).value[c] == Some(x)
    ensures ReturnAt(prices, t, k) == Success(Some(x))
  {
    var pct := PctRowByName(prices, t.names, m).value;
    var w := Weights(RowAt(t, k));
    assert ReturnAt(prices, t, k) == Success(Dot(pct, w));
    DotUniform(pct, w, x);
    WeightsSumToOne(RowAt(t, k));
  }

  /** The first close column labelled with an asset is the asset's first entry among the closes. */
  lemma {:induction false} CloseColumnOfCloses(columns: seq<(Label, Column)>, c: nat)
    requires c < |Closes(columns)|
    requires forall c' :: 0 <= c' < c ==> Closes(columns)[c'].0 != Closes(columns)[c].0
    ensures CloseColumn(columns, Closes(columns)[c].0) == Some(Closes(columns)[c].1)
  {
    var rest := Closes(columns[1..]);
    if columns[0].0.0 == "Close" {
      assert Closes(columns) == [(columns[0].0.1, columns[0].1)] + rest;
      if c > 0 {
        assert Closes(columns)[c] == rest[c - 1];
        assert Closes(columns)[0].0 != Closes(columns)[c].0;
        forall c' | 0 <= c' < c - 1 ensures rest[c'].0 != rest[c - 1].0 {
          assert rest[c'] == Closes(columns)[c' + 1];
        }
        CloseColumnOfCloses(columns[1..], c - 1);
      }
    } else {
      assert Closes(columns) == rest;
      CloseColumnOfCloses(columns[1..], c);
    }
  }

  /** When the close columns list exactly the portfolio's assets in the portfolio's order, the
      positional product is the by-name one. */
  lemma PositionalAgrees(prices: PriceTable, t: Table, k: nat)
    requires Shaped(t) && k < |t.index| && NoDup(t.names)
    requires |Closes(prices.columns)| == |t.names|
    requires forall c :: 0 <= c < |t.names| ==> Closes(prices.columns)[c].0 == t.names[c]
    ensures ReturnAtPositional(prices, t, k) == ReturnAt(prices, t, k)
  {
    var closes := Closes(prices.columns);
    forall c | 0 <= c < |t.names| ensures CloseColumn(prices.columns, t.names[c]) == Some(closes[c].1) {
      CloseColumnOfCloses(prices.columns, c);
    }
    var i := IndexOf(prices.index, t.index[k]);
    if i.Some? {
      assert PctRow(prices, i.value) == PctRowByName(prices, t.names, i.value).value;
    }
  }

  /** Zero weights give a zero weighted change, provided every change is a number. */
  lemma {:induction false} DotZeroWeights(ps: seq<Option<real>>, ws: seq<real>)
    requires |ps| == |ws| && forall i :: 0 <= i < |ps| ==> ps[i].Some? && ws[i] == 0.0
    ensures Dot(ps, ws) == Some(0.0)
  {
    if ps != [] {
      DotZeroWeights(ps[1..], ws[1..]);
    }
  }

  /** A day of zero patrimony earns a zero return: every weight is 0 (the 0 / 0 filled with 0). */
  lemma ReturnAtZeroPatrimony(prices: PriceTable, t: Table, k: nat, m: nat)
    requires Shaped(t) && k < |t.index| && IndexOf(prices.index, t.index[k]) == Some(m)
    requires SumPresent(RowAt(t, k)) == 0.0 && PctRowByName(prices, t.names, m).Success?
    requires forall c :: 0 <= c < |t.names| ==> PctRowByName(prices, t.names, m).value[c].Some?
    ensures ReturnAt(prices, t, k) == Success(Some(0.0))
  {
    var pct := PctRowByName(prices, t.names, m).value;
    var w := Weights(RowAt(t, k));
    assert ReturnAt(prices, t, k) == Success(Dot(pct, w));
    WeightsOfZeroTotal(RowAt(t, k));
    DotZeroWeights(pct, w);
  }

  /** Equal weights on opposite changes cancel. */
  lemma DotOpposite(x: real, h: real)
    ensures Dot([Some(x), Some(-x)], [h, h]) == Some(0.0)
  {
    var p1: seq<Option<real>>, w1: seq<real> := [Some(-x)], [h];
    assert Dot(p1[1..], w1[1..]) == Some(0.0) by { assert p1[1..] == [] && w1[1..] == []; }
    assert p1[0].value == -x && w1[0] == h;
    assert Dot(p1, w1).Some? && Dot(p1, w1).value == p1[0].value * w1[0] + Dot(p1[1..], w1[1..]).value;
    assert Dot(p1, w1).value == -x * h;
    var ps: seq<Option<real>>, ws: seq<real> := [Some(x), Some(-x)], [h, h];
    assert ps[1..] == p1 && ws[1..] == w1;
    assert ps[0].value == x && ws[0] == h;
    assert Dot(ps, ws).Some? && Dot(ps, ws).value == ps[0].value * ws[0] + Dot(p1, w1).value;
    assert Dot(ps, ws).value == x * h + -x * h;
  }

  /** Two holdings of equal value, one rising by x while the other falls by x: the day's return is 0. */
  lemma ReturnAtBalanced(prices: PriceTable, t: Table, k: nat, m: nat, x: real)
    requires Shaped(t) && |t.names| == 2 && k < |t.index| && IndexOf(prices.index, t.index[k]) == Some(m)
    requires t.cols[0][k].Some? && t.cols[0][k].value > 0.0 && t.cols[1][k] == t.cols[0][k]
    requires PctRowByName(prices, t.names, m) == Success([Some(x), Some(-x)])
    ensures ReturnAt(prices, t, k) == Success(Some(0.0))
  {
    var row := RowAt(t, k);
    var v := t.cols[0][k].value;
    assert row == [Some(v), Some(v)];
    assert SumPresent(row) == v + v by {
      assert SumPresent(row[1..]) == v;
    }
    var w := Weights(row);
    assert w == [v / (v + v), v / (v + v)];
    DotOpposite(x, v / (v + v));
    assert ReturnAt(prices, t, k) == Success(Dot([Some(x), Some(-x)], w));
  }

  /** Two holdings: B's close halves from 2 to 1 while A's rises from 1 to 1.1, and the matrix lists
      B's close before A's. */
  function ExamplePrices(): PriceTable {
    PriceTable([Jan1st2018, Jan1st2018 + 1], [(("Close", "B"), ExampleB()), (("Close", "A"), ExampleA())])
  }

  function ExampleA(): Column {
    map[Jan1st2018 := 1.0, Jan1st2018 + 1 := 1.1]
  }

  function ExampleB(): Column {
    map[Jan1st2018 := 2.0, Jan1st2018 + 1 := 1.0]
  }

  /** On the second day A is worth 3 and B is worth 1, in the sorted column order A, B. */
  function ExampleHoldings(): Table {
    Table([Jan1st2018 + 1], ["A", "B"], [[Some(3.0)], [Some(1.0)]])
  }

  lemma ExampleCloses()
    ensures Closes(ExamplePrices().columns) == [("B", ExampleB()), ("A", ExampleA())]
    ensures CloseColumn(ExamplePrices().columns, "A") == Some(ExampleA())
    ensures CloseColumn(ExamplePrices().columns, "B") == Some(ExampleB())
  {
    var columns := ExamplePrices().columns;
    assert Closes(columns[1..]) == [("A", ExampleA())];
    assert CloseColumn(columns[1..], "A") == Some(ExampleA());
  }

  lemma ExamplePct()
    ensures PctChange(OnCalendar(ExamplePrices().index, ExampleB()))[1] == Some(-0.5)
    ensures PctChange(OnCalendar(ExamplePrices().index, ExampleA()))[1] == Some(0.1)
  {
    var index := ExamplePrices().index;
    assert OnCalendar(index, ExampleB()) == [Some(2.0), Some(1.0)];
    assert OnCalendar(index, ExampleA()) == [Some(1.0), Some(1.1)];
    PctChangeAt(OnCalendar(index, ExampleB()), 1);
    PctChangeAt(OnCalendar(index, ExampleA()), 1);
  }

  lemma ExampleChanges()
    ensures PctRow(ExamplePrices(), 1) == [Some(-0.5), Some(0.1)]
    ensures PctRowByName(ExamplePrices(), ["A", "B"], 1) == Success([Some(0.1), Some(-0.5)])
  {
    ExampleCloses();
    ExamplePct();
    var row := PctRow(ExamplePrices(), 1);
    assert row[0] == Some(-0.5) && row[1] == Some(0.1);
    var byName := PctRowByName(ExamplePrices(), ["A", "B"], 1);
    assert byName.Success?;
    assert byName.value[0] == Some(0.1) && byName.value[1] == Some(-0.5);
    assert |row| == 2 && |byName.value| == 2;
    assert row == [Some(-0.5), Some(0.1)];
    assert byName.value == [Some(0.1), Some(-0.5)];
  }

  lemma ExampleWeights()
    ensures Shaped(ExampleHoldings())
    ensures Weights(RowAt(ExampleHoldings(), 0)) == [0.75, 0.25]
  {
    var row := RowAt(ExampleHoldings(), 0);
    assert row == [Some(3.0), Some(1.0)];
    assert SumPresent(row[1..]) == 1.0;
    assert SumPresent(row) == 4.0;
  }

  /** Paired by name the example's second-day return is 0.75 * 10% - 0.25 * 50% = -5%; paired by
      position, as written, it is 0.75 * -50% + 0.25 * 10% = -35%. */
  lemma PositionalMisweighs()
    ensures Shaped(ExampleHoldings())
    ensures ReturnAt(ExamplePrices(), ExampleHoldings(), 0) == Success(Some(-0.05))
    ensures ReturnAtPositional(ExamplePrices(), ExampleHoldings(), 0) == Success(Some(-0.35))
  {
    ExampleChanges();
    ExampleWeights();
    var prices, t := ExamplePrices(), ExampleHoldings();
    assert IndexOf(prices.index, t.index[0]) == Some(1);
    var w := Weights(RowAt(t, 0));
    assert Dot([Some(-0.5)][1..], w[1..][1..]) == Some(0.0);
    assert Dot([Some(0.1), Some(-0.5)], w) == Some(-0.05);
    assert Dot([Some(-0.5), Some(0.1)], w) == Some(-0.35);
  }

  /** Day k's entry of the returns series. */
  function DayReturn(prices: PriceTable, t: Table, k: nat): Result<(Day, Option<real>), Error>
    requires Shaped(t) && k < |t.index|
  {
    var r :- ReturnAt(prices, t, k);
    Success((t.index[k], r))
  }

  /** A day's step fails with the day's error, or carries the day and its return. */
  lemma DayReturnOf(prices: PriceTable, t: Table, k: nat)
    requires Shaped(t) && k < |t.index|
    ensures DayReturn(prices, t, k).Success? <==> ReturnAt(prices, t, k).Success?
    ensures DayReturn(prices, t, k).Success? ==> DayReturn(prices, t, k).value == (t.index[k], ReturnAt(prices, t, k).value)
    ensures DayReturn(prices, t, k).Failure? ==> DayReturn(prices, t, k).error == ReturnAt(prices, t, k).error
  {
  }

  /** The steps of the `get_returns` loop: one per calendar day of the portfolio, in order. */
  function DayReturns(prices: PriceTable, t: Table): (r: seq<Result<(Day, Option<real>), Error>>)
    requires Shaped(t)
    ensures |r| == |t.index| && forall k :: 0 <= k < |t.index| ==> r[k] == DayReturn(prices, t, k)
  {
    seq(|t.index|, k requires 0 <= k < |t.index| => DayReturn(prices, t, k))
  }

  /** `get_returns`: every calendar day's return, in calendar order, from the first ledger date on;
      the first day whose step raises aborts. */
  function Returns(prices: PriceTable, t: Table, first: Day): (r: Result<seq<(Day, Option<real>)>, Error>)
    requires Shaped(t)
    ensures r.Success? ==> forall e :: e in r.value ==> e.0 >= first
  {
    var rs :- Collect(DayReturns(prices, t));
    Success(Since(rs, first))
  }

  /** The returns exist exactly when every calendar day's return does; otherwise the error is that
      of the first failing day. */
  lemma ReturnsDefined(prices: PriceTable, t: Table, first: Day)
    requires Shaped(t)
    ensures Returns(prices, t, first).Success? <==> forall k :: 0 <= k < |t.index| ==> ReturnAt(prices, t, k).Success?
    ensures Returns(prices, t, first).Failure? ==>
      exists k :: 0 <= k < |t.index| && ReturnAt(prices, t, k).Failure? &&
        Returns(prices, t, first).error == ReturnAt(prices, t, k).error &&
        forall j :: 0 <= j < k ==> ReturnAt(prices, t, j).Success?
  {
    var steps := DayReturns(prices, t);
    CollectCorrect(steps);
    forall k | 0 <= k < |t.index| ensures steps[k].Success? <==> ReturnAt(prices, t, k).Success? {
      DayReturnOf(prices, t, k);
    }
    if Collect(steps).Failure? {
      assert Returns(prices, t, first).error == Collect(steps).error;
      var k :| 0 <= k < |steps| && steps[k].Failure? && Collect(steps).error == steps[k].error &&
        forall j :: 0 <= j < k ==> steps[j].Success?;
      DayReturnOf(prices, t, k);
    }
  }

  /** When they exist, the returns are the calendar days from `first` on, each with its return. */
  lemma ReturnsEntries(prices: PriceTable, t: Table, first: Day)
    requires Shaped(t) && Returns(prices, t, first).Success?
    ensures forall e :: e in Returns(prices, t, first).value <==>
      e.0 >= first && exists k :: 0 <= k < |t.index| && e.0 == t.index[k] && ReturnAt(prices, t, k) == Success(e.1)
  {
    var steps := DayReturns(prices, t);
    CollectCorrect(steps);
    var rs := Collect(steps).value;
    forall e ensures e in rs <==>
      exists k :: 0 <= k < |t.index| && e.0 == t.index[k] && ReturnAt(prices, t, k) == Success(e.1)
    {
      if e in rs {
        var k :| 0 <= k < |rs| && rs[k] == e;
        assert steps[k] == Success(e);
      }
      if exists k :: 0 <= k < |t.index| && e.0 == t.index[k] && ReturnAt(prices, t, k) == Success(e.1) {
        var k :| 0 <= k < |t.index| && e.0 == t.index[k] && ReturnAt(prices, t, k) == Success(e.1);
        assert steps[k] == Success(e);
        assert rs[k] == e;
      }
    }
  }

  /** On an increasing calendar the returns are in calendar order. */
  lemma ReturnsInOrder(prices: PriceTable, t: Table, first: Day)
    requires Shaped(t) && Increasing(t.index) && Returns(prices, t, first).Success?
    ensures DatesIncreasing(Returns(prices, t, first).value)
  {
    var steps := DayReturns(prices, t);
    CollectCorrect(steps);
    var rs := Collect(steps).value;
    forall i, j | 0 <= i < j < |rs| ensures rs[i].0 < rs[j].0 {
      assert steps[i].value.0 == t.index[i] && steps[j].value.0 == t.index[j];
    }
    SinceInOrder(rs, first);
  }

  /** `(1 + returns).cumprod()` on a returns series, keeping its dates. */
  function Compounded(rs: seq<(Day, Option<real>)>): (r: seq<(Day, Option<real>)>)
    ensures |r| == |rs|
  {
    var values := seq(|rs|, k requires 0 <= k < |rs| => rs[k].1);
    var growth := CumProd(values);
    seq(|rs|, k requires 0 <= k < |rs| => (rs[k].0, growth[k]))
  }

  /** `get_cumulative_returns`: the compounded returns, sliced from the first ledger date again. */
  function CumulativeReturns(rs: seq<(Day, Option<real>)>, first: Day): (r: seq<(Day, Option<real>)>)
    ensures |r| <= |rs| && forall e :: e in r ==> e.0 >= first
    ensures forall e :: e in r ==> exists k :: 0 <= k < |rs| && e.0 == rs[k].0
  {
    Since(Compounded(rs), first)
  }

  /** Entry k of the cumulative returns of a sliced series is the growth of one unit over its first
      k + 1 returns, NaN where the day's return is; the second slice changes nothing. */
  lemma CumulativeReturnsAt(s: seq<(Day, Option<real>)>, first: Day, k: nat)
    requires k < |Since(s, first)|
    ensures CumulativeReturns(Since(s, first), first) == Compounded(Since(s, first))
    ensures CumulativeReturns(Since(s, first), first)[k] ==
      (Since(s, first)[k].0,
       if Since(s, first)[k].1.None? then None
       else Some(Growth(seq(k + 1, i requires 0 <= i < k + 1 => Since(s, first)[i].1))))
  {
    var rs := Since(s, first);
    CompoundedSince(rs, first);
    var values := seq(|rs|, i requires 0 <= i < |rs| => rs[i].1);
    CumProdAt(values, k);
    assert values[..k + 1] == seq(k + 1, i requires 0 <= i < k + 1 => rs[i].1);
  }

  /** Compounding keeps the days, so a series already sliced from `first` is not cut again. */
  lemma CompoundedSince(rs: seq<(Day, Option<real>)>, first: Day)
    requires forall e :: e in rs ==> e.0 >= first
    ensures CumulativeReturns(rs, first) == Compounded(rs)
  {
    var c := Compounded(rs);
    forall i | 0 <= i < |c| ensures c[i].0 >= first {
      assert rs[i] in rs;
    }
    SinceIdempotent(c, first);
  }
}
