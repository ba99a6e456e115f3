/** `_get_allocation_time_series`: the running share totals pivoted to a (date, asset) table, put on
    the business-day calendar extended to the load-time cutoff, and forward-filled. */
module Allocation {
  import opened Wrappers
  import opened Errors
  import opened Seqs
  import opened Calendar
  import opened Frames
  import opened Holdings

  /** A date-indexed table of numbers kept column by column: cols[c][k] is the entry of column
      names[c] on index[k]; None is NaN. */
  datatype Table = Table(index: seq<Day>, names: seq<string>, cols: seq<seq<Option<real>>>)

  /** One column per name, one entry per date. */
  predicate Shaped(t: Table) {
    |t.cols| == |t.names| && forall c :: 0 <= c < |t.cols| ==> |t.cols[c]| == |t.index|
  }

  /** No value in the table is negative (NaN cells aside). */
  predicate CellsNonNegative(t: Table)
    requires Shaped(t)
  {
    forall c, k :: 0 <= c < |t.names| && 0 <= k < |t.index| && t.cols[c][k].Some? ==> t.cols[c][k].value >= 0.0
  }

  /** Row k of the table (`df.loc[index[k]]`), in column order. */
  function RowAt(t: Table, k: nat): (r: seq<Option<real>>)
    requires Shaped(t) && k < |t.index|
    ensures |r| == |t.names| && forall c :: 0 <= c < |t.names| ==> r[c] == t.cols[c][k]
  {
    seq(|t.names|, c requires 0 <= c < |t.names| => t.cols[c][k])
  }

  /** Two rows for the same asset on the same date: `pivot` refuses to build the table. */
  predicate HasDuplicate(ledger: seq<Row>) {
    exists i, j :: 0 <= i < j < |ledger| && ledger[i].date == ledger[j].date && ledger[i].assetName == ledger[j].assetName
  }

  /** The row recording asset `a` on date `d`, if there is one. */
  function RowOn(ledger: seq<Row>, a: string, d: Day): (r: Option<nat>)
    ensures r.None? <==> forall i :: 0 <= i < |ledger| ==> !(ledger[i].assetName == a && ledger[i].date == d)
    ensures r.Some? ==> r.value < |ledger| && ledger[r.value].assetName == a && ledger[r.value].date == d
  {
    if ledger == [] then None
    else
      var init := ledger[..|ledger| - 1];
      assert forall i :: 0 <= i < |init| ==> init[i] == ledger[i];
      var r := RowOn(init, a, d);
      if r.Some? then r
      else if ledger[|ledger| - 1].assetName == a && ledger[|ledger| - 1].date == d then Some(|ledger| - 1)
      else None
  }

  /** The pivoted entry for (d, a): the `shares` of the row recording `a` on `d`; NaN without one. */
  function PivotCell(ledger: seq<Row>, shares: seq<Option<real>>, a: string, d: Day): Option<real>
    requires |shares| == |ledger|
  {
    match RowOn(ledger, a, d)
    case None => None
    case Some(i) => shares[i]
  }

  /** With no duplicate rows, the entry for a row's own asset and date is that row's `shares`. */
  lemma PivotCellOfRow(ledger: seq<Row>, shares: seq<Option<real>>, i: nat)
    requires |shares| == |ledger| && !HasDuplicate(ledger) && i < |ledger|
    ensures PivotCell(ledger, shares, ledger[i].assetName, ledger[i].date) == shares[i]
  {
    var j := RowOn(ledger, ledger[i].assetName, ledger[i].date).value;
    assert j == i;
  }

  /** The sorted union of two increasing date lists: the outer merge on `Date`. */
  function Merge(a: seq<Day>, b: seq<Day>): (r: seq<Day>)
    requires Increasing(a) && Increasing(b)
    ensures Increasing(r)
    ensures forall d :: d in r <==> d in a || d in b
    decreases |a| + |b|
  {
    if a == [] then b
    else if b == [] then a
    else
      IncreasingTail(a);
      IncreasingTail(b);
      IncreasingHeadLeast(a);
      IncreasingHeadLeast(b);
      assert forall d :: d in a <==> d == a[0] || d in a[1..];
      assert forall d :: d in b <==> d == b[0] || d in b[1..];
      var x := if a[0] <= b[0] then a[0] else b[0];
      var rest := if a[0] < b[0] then Merge(a[1..], b)
                  else if b[0] < a[0] then Merge(a, b[1..])
                  else Merge(a[1..], b[1..]);
      IncreasingCons(x, rest);
      [x] + rest
  }

  /** The allocation calendar: the business days from the first to the last ledger date, merged with
      the business days from the last of those up to `cutoff` (`date_range(last_date, TODAY)`); with
      no business day among them, `index[-1]` has nothing to return. */
  function AllocationIndex(ledger: seq<Row>, cutoff: Day): (r: Result<seq<Day>, Error>)
    ensures r.Success? ==> Increasing(r.value)
  {
    var raw := AsFreqB(Dates(ledger));
    if raw == [] then Failure(EmptyIndex)
    else Success(Merge(raw, BusinessDays(raw[|raw| - 1], cutoff)))
  }

  /** The calendar fails exactly when no ledger date range holds a business day; otherwise it is every
      business day from the first ledger date to the later of the last ledger date and `cutoff`. */
  lemma AllocationIndexSpan(ledger: seq<Row>, cutoff: Day)
    requires ledger != []
    ensures AllocationIndex(ledger, cutoff).Failure? <==>
      forall d :: Min(Dates(ledger)) <= d <= Max(Dates(ledger)) ==> !IsBusinessDay(d)
    ensures AllocationIndex(ledger, cutoff).Failure? ==> AllocationIndex(ledger, cutoff).error == EmptyIndex
    ensures AllocationIndex(ledger, cutoff).Success? ==>
      forall d :: d in AllocationIndex(ledger, cutoff).value <==>
        Min(Dates(ledger)) <= d <= (if cutoff > Max(Dates(ledger)) then cutoff else Max(Dates(ledger))) &&
        IsBusinessDay(d)
  {
    var dates := Dates(ledger);
    assert dates[0] in dates;
    var raw := AsFreqB(dates);
    if raw != [] {
      var last := raw[|raw| - 1];
      assert last in raw;
    } else {
      forall d | Min(dates) <= d <= Max(dates) ensures !IsBusinessDay(d) {
        assert d !in raw;
      }
    }
  }

  /** The asset's column before the fill: its pivoted entry on each calendar day. */
  function RawColumn(ledger: seq<Row>, shares: seq<Option<real>>, a: string, index: seq<Day>): (r: seq<Option<real>>)
    requires |shares| == |ledger|
    ensures |r| == |index| && forall k :: 0 <= k < |index| ==> r[k] == PivotCell(ledger, shares, a, index[k])
  {
    seq(|index|, k requires 0 <= k < |index| => PivotCell(ledger, shares, a, index[k]))
  }

  /** `_get_allocation_time_series`: pivot (duplicates raise), calendar, then forward fill; the
      columns are the distinct asset names, sorted. */
  function AllocationTable(ledger: seq<Row>, shares: seq<Option<real>>, cutoff: Day): (r: Result<Table, Error>)
    requires |shares| == |ledger|
    ensures r.Success? ==> Shaped(r.value) && Increasing(r.value.index)
  {
    if HasDuplicate(ledger) then Failure(DuplicateEntries)
    else
      var index :- AllocationIndex(ledger, cutoff);
      var names := SortedDistinct(Names(ledger));
      Success(Table(index, names,
        seq(|names|, c requires 0 <= c < |names| => FFill(RawColumn(ledger, shares, names[c], index)))))
  }

  /** The table exists exactly when no asset has two rows on one date and the calendar exists; its
      columns are the ledger's asset names, each once, sorted, and its days the calendar's. */
  lemma AllocationTableShape(ledger: seq<Row>, shares: seq<Option<real>>, cutoff: Day)
    requires |shares| == |ledger|
    ensures AllocationTable(ledger, shares, cutoff).Success? <==>
      !HasDuplicate(ledger) && AllocationIndex(ledger, cutoff).Success?
    ensures HasDuplicate(ledger) ==> AllocationTable(ledger, shares, cutoff) == Failure(DuplicateEntries)
    ensures AllocationTable(ledger, shares, cutoff).Success? ==>
      var t := AllocationTable(ledger, shares, cutoff).value;
      t.index == AllocationIndex(ledger, cutoff).value && StrictlySorted(t.names) && NoDup(t.names) &&
      forall x :: x in t.names <==> exists i :: 0 <= i < |ledger| && ledger[i].assetName == x
  {
    var names := SortedDistinct(Names(ledger));
    StrictlySortedNoDup(names);
    forall x ensures x in names <==> exists i :: 0 <= i < |ledger| && ledger[i].assetName == x {
      if x in names {
        var i :| 0 <= i < |ledger| && Names(ledger)[i] == x;
      }
      if exists i :: 0 <= i < |ledger| && ledger[i].assetName == x {
        var i :| 0 <= i < |ledger| && ledger[i].assetName == x;
        assert Names(ledger)[i] == x;
      }
    }
  }

  /** Column c of the table is the forward fill of the asset's pivoted entries. */
  lemma AllocationColumnOf(ledger: seq<Row>, shares: seq<Option<real>>, cutoff: Day, t: Table, c: nat)
    requires |shares| == |ledger| && AllocationTable(ledger, shares, cutoff) == Success(t) && c < |t.names|
    ensures !HasDuplicate(ledger) && Increasing(t.index) && Shaped(t)
    ensures t.cols[c] == FFill(RawColumn(ledger, shares, t.names[c], t.index))
  {
  }

  /** The forward-fill rule on one column: on calendar day k the entry is the `shares` of row i,
      dated on calendar day k0 <= k, when no later row of the asset up to day k has shares. */
  lemma ColumnAt(ledger: seq<Row>, shares: seq<Option<real>>, a: string, index: seq<Day>, k0: nat, k: nat, i: nat)
    requires |shares| == |ledger| && !HasDuplicate(ledger) && Increasing(index)
    requires k0 <= k < |index| && i < |ledger|
    requires ledger[i].assetName == a && ledger[i].date == index[k0] && shares[i].Some?
    requires forall j :: 0 <= j < |ledger| && ledger[j].assetName == a && shares[j].Some? ==>
      !(index[k0] < ledger[j].date <= index[k])
    ensures FFill(RawColumn(ledger, shares, a, index))[k] == shares[i]
  {
    var raw := RawColumn(ledger, shares, a, index);
    PivotCellOfRow(ledger, shares, i);
    var pre := raw[..k + 1];
    forall m | k0 < m < |pre| ensures pre[m].None? {
      PivotCellQuiet(ledger, shares, a, index[k0], index[k], index[m]);
    }
    LatestAt(pre, k0);
  }

  /** A day strictly after d0 and not after d1, when no row of the asset dated in that span has
      shares, pivots to NaN. */
  lemma PivotCellQuiet(ledger: seq<Row>, shares: seq<Option<real>>, a: string, d0: Day, d1: Day, d: Day)
    requires |shares| == |ledger| && d0 < d <= d1
    requires forall j :: 0 <= j < |ledger| && ledger[j].assetName == a && shares[j].Some? ==> !(d0 < ledger[j].date <= d1)
    ensures PivotCell(ledger, shares, a, d).None?
  {
    var r := RowOn(ledger, a, d);
  }

  /** With no row of the asset dated on a calendar day up to day k carrying shares, the entry on
      day k is NaN. */
  lemma ColumnBeforeFirst(ledger: seq<Row>, shares: seq<Option<real>>, a: string, index: seq<Day>, k: nat)
    requires |shares| == |ledger| && k < |index|
    requires forall j, m :: (0 <= j < |ledger| && 0 <= m <= k && ledger[j].assetName == a &&
                             ledger[j].date == index[m]) ==> shares[j].None?
    ensures FFill(RawColumn(ledger, shares, a, index))[k].None?
  {
    var raw := RawColumn(ledger, shares, a, index);
    var pre := raw[..k + 1];
    forall m | 0 <= m < |pre| ensures pre[m].None? {
      var r := RowOn(ledger, a, index[m]);
    }
    LatestNone(pre);
  }

  /** Each filled entry is the `shares` of some row of the asset. */
  lemma ColumnSource(ledger: seq<Row>, shares: seq<Option<real>>, a: string, index: seq<Day>, k: nat) returns (j: nat)
    requires |shares| == |ledger| && k < |index|
    requires FFill(RawColumn(ledger, shares, a, index))[k].Some?
    ensures j < |ledger| && ledger[j].assetName == a && ledger[j].date in index[..k + 1]
    ensures FFill(RawColumn(ledger, shares, a, index))[k] == shares[j]
  {
    var raw := RawColumn(ledger, shares, a, index);
    var pre := raw[..k + 1];
    var m := LatestSource(pre);
    j := RowOn(ledger, a, index[m]).value;
    assert index[..k + 1][m] == index[m];
  }

  /** The forward-fill rule on the table: on calendar day k, an asset's allocation is the `shares`
      of its row dated on calendar day k0 <= k, when no later row of the asset up to day k has shares. */
  lemma AllocationAt(ledger: seq<Row>, shares: seq<Option<real>>, cutoff: Day, t: Table, c: nat, k0: nat, k: nat, i: nat)
    requires |shares| == |ledger| && AllocationTable(ledger, shares, cutoff) == Success(t)
    requires c < |t.names| && k0 <= k < |t.index| && i < |ledger|
    requires ledger[i].assetName == t.names[c] && ledger[i].date == t.index[k0] && shares[i].Some?
    requires forall j :: 0 <= j < |ledger| && ledger[j].assetName == t.names[c] && shares[j].Some? ==>
      !(t.index[k0] < ledger[j].date <= t.index[k])
    ensures t.cols[c][k] == shares[i]
  {
    AllocationColumnOf(ledger, shares, cutoff, t, c);
    ColumnAt(ledger, shares, t.names[c], t.index, k0, k, i);
  }

  /** Before an asset's first row with shares on the calendar there is no allocation (no back fill). */
  lemma AllocationBeforeFirst(ledger: seq<Row>, shares: seq<Option<real>>, cutoff: Day, t: Table, c: nat, k: nat)
    requires |shares| == |ledger| && AllocationTable(ledger, shares, cutoff) == Success(t)
    requires c < |t.names| && k < |t.index|
    requires forall j, m :: (0 <= j < |ledger| && 0 <= m <= k && ledger[j].assetName == t.names[c] &&
                             ledger[j].date == t.index[m]) ==> shares[j].None?
    ensures t.cols[c][k].None?
  {
    AllocationColumnOf(ledger, shares, cutoff, t, c);
    ColumnBeforeFirst(ledger, shares, t.names[c], t.index, k);
  }

  /** Every allocation is some row's `shares`, so non-negative shares give non-negative allocations. */
  lemma AllocationNonNegative(ledger: seq<Row>, shares: seq<Option<real>>, cutoff: Day, t: Table, c: nat, k: nat)
    requires |shares| == |ledger| && AllocationTable(ledger, shares, cutoff) == Success(t)
    requires forall j :: 0 <= j < |ledger| && shares[j].Some? ==> shares[j].value >= 0.0
    requires c < |t.names| && k < |t.index| && t.cols[c][k].Some?
    ensures t.cols[c][k].value >= 0.0
  {
    AllocationColumnOf(ledger, shares, cutoff, t, c);
    var j := ColumnSource(ledger, shares, t.names[c], t.index, k);
  }

  /** Non-negative holdings give an allocation table with no negative cell. */
  lemma AllocationTableNonNegative(ledger: seq<Row>, shares: seq<Option<real>>, cutoff: Day, t: Table)
    requires |shares| == |ledger| && NonNegative(shares) && AllocationTable(ledger, shares, cutoff) == Success(t)
    ensures Shaped(t) && CellsNonNegative(t)
  {
    forall c, k | 0 <= c < |t.names| && 0 <= k < |t.index| && t.cols[c][k].Some? ensures t.cols[c][k].value >= 0.0 {
      AllocationNonNegative(ledger, shares, cutoff, t, c, k);
    }
  }
}
