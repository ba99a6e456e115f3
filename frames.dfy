/** The pandas column operations the engine composes, on columns whose missing entries (NaN) are None. */
module Frames {
  import opened Wrappers
  import opened Calendar
  import opened Seqs

  /** A closing, opening, high or low price: the price source delivers positive values only. */
  type Price = x: real | x > 0.0 witness 1.0

  /** One date-keyed price column; a date with no entry is NaN. */
  type Column = map<Day, Price>

  /** The last value present in `c`, if any: what forward fill carries to the end of `c`. */
  function Latest<T>(c: seq<Option<T>>): Option<T> {
    if c == [] then None
    else if c[|c| - 1].Some? then c[|c| - 1]
    else Latest(c[..|c| - 1])
  }

  /** `fillna(method='ffill')`: each entry becomes the latest value present at or before it. */
  function FFill<T>(c: seq<Option<T>>): (r: seq<Option<T>>)
    ensures |r| == |c|
    ensures forall k :: 0 <= k < |c| && c[k].Some? ==> r[k] == c[k]
  {
    seq(|c|, k requires 0 <= k < |c| => Latest(c[..k + 1]))
  }

  /** Forward fill leaves nothing before the first value present (no backward fill). */
  lemma {:induction false} LatestNone<T>(c: seq<Option<T>>)
    ensures Latest(c).None? <==> forall j :: 0 <= j < |c| ==> c[j].None?
  {
    if c != [] {
      LatestNone(c[..|c| - 1]);
    }
  }

  /** Forward fill carries the value at position j to the end when nothing is present after j. */
  lemma {:induction false} LatestAt<T>(c: seq<Option<T>>, j: nat)
    requires j < |c| && c[j].Some?
    requires forall m :: j < m < |c| ==> c[m].None?
    ensures Latest(c) == c[j]
  {
    if j < |c| - 1 {
      LatestAt(c[..|c| - 1], j);
    }
  }

  /** Every value forward fill produces is the value present at some earlier or equal position. */
  lemma {:induction false} LatestSource<T>(c: seq<Option<T>>) returns (j: nat)
    requires Latest(c).Some?
    ensures j < |c| && c[j] == Latest(c)
    ensures forall m :: j < m < |c| ==> c[m].None?
  {
    if c[|c| - 1].Some? {
      j := |c| - 1;
    } else {
      j := LatestSource(c[..|c| - 1]);
    }
  }

  /** A filled entry is the value present at some position at or before it. */
  lemma FFillSource<T>(c: seq<Option<T>>, k: nat) returns (j: nat)
    requires k < |c| && FFill(c)[k].Some?
    ensures j <= k && c[j] == FFill(c)[k]
  {
    j := LatestSource(c[..k + 1]);
    assert c[..k + 1][j] == c[j];
  }

  /** The forward-fill recurrence: keep a present value, otherwise repeat the previous entry. */
  lemma FFillStep<T>(c: seq<Option<T>>, k: nat)
    requires 0 < k < |c|
    ensures FFill(c)[k] == if c[k].Some? then c[k] else FFill(c)[k - 1]
  {
    assert c[..k + 1][..k] == c[..k];
  }

  /** `pct_change()` (pandas' default pads NaN first): change from the previous row's padded value
      to this row's; NaN on the first row and while nothing has been seen. */
  function PctChange(c: seq<Option<Price>>): (r: seq<Option<real>>)
    ensures |r| == |c|
    ensures |c| > 0 ==> r[0].None?
  {
    seq(|c|, k requires 0 <= k < |c| =>
      if k == 0 then None
      else match (Latest(c[..k + 1]), Latest(c[..k]))
        case (Some(now), Some(before)) => Some((now as real) / (before as real) - 1.0)
        case _ => None)
  }

  /** On two consecutive rows with prices present, the change is the plain ratio minus one. */
  lemma PctChangeAt(c: seq<Option<Price>>, k: nat)
    requires 0 < k < |c| && c[k].Some? && c[k - 1].Some?
    ensures PctChange(c)[k] == Some((c[k].value as real) / (c[k - 1].value as real) - 1.0)
  {
    assert c[..k + 1][k] == c[k];
    assert c[..k][k - 1] == c[k - 1];
  }

  /** `sum(axis=1)` over one row: NaN entries are skipped; a row of NaN sums to 0. */
  function SumPresent(row: seq<Option<real>>): real {
    if row == [] then 0.0
    else (if row[0].Some? then row[0].value else 0.0) + SumPresent(row[1..])
  }

  predicate AllNaN(row: seq<Option<real>>) {
    forall c :: 0 <= c < |row| ==> row[c].None?
  }

  /** A row with no value present sums to 0. */
  lemma {:induction false} SumPresentOfNaN(row: seq<Option<real>>)
    requires AllNaN(row)
    ensures SumPresent(row) == 0.0
  {
    if row != [] {
      SumPresentOfNaN(row[1..]);
    }
  }

  predicate NonNegative(row: seq<Option<real>>) {
    forall c :: 0 <= c < |row| && row[c].Some? ==> row[c].value >= 0.0
  }

  /** Patrimony is never negative when no holding is. */
  lemma {:induction false} SumPresentNonNegative(row: seq<Option<real>>)
    requires NonNegative(row)
    ensures SumPresent(row) >= 0.0
  {
    if row != [] {
      SumPresentNonNegative(row[1..]);
    }
  }

  /** A zero row sum with no negative entry means every present entry is zero. */
  lemma {:induction false} ZeroSumAllZero(row: seq<Option<real>>)
    requires NonNegative(row) && SumPresent(row) == 0.0
    ensures forall c :: 0 <= c < |row| && row[c].Some? ==> row[c].value == 0.0
  {
    if row != [] {
      SumPresentNonNegative(row[1..]);
      ZeroSumAllZero(row[1..]);
      assert forall c :: 1 <= c < |row| ==> row[c] == row[1..][c - 1];
    }
  }

  /** One cell of `div(total, axis=0).fillna(0)`: a NaN value, or 0 / 0, becomes weight 0. */
  function Weight(v: Option<real>, total: real): real {
    if v.None? || total == 0.0 then 0.0 else v.value / total
  }

  function WeightsBy(row: seq<Option<real>>, total: real): (r: seq<real>)
    ensures |r| == |row|
    ensures forall c :: 0 <= c < |row| ==> r[c] == Weight(row[c], total)
  {
    if row == [] then [] else [Weight(row[0], total)] + WeightsBy(row[1..], total)
  }

  /** The weights of one row: each value's share of the row sum. */
  function Weights(row: seq<Option<real>>): (r: seq<real>)
    ensures |r| == |row|
    ensures forall c :: 0 <= c < |row| && row[c].None? ==> r[c] == 0.0
  {
    WeightsBy(row, SumPresent(row))
  }

  lemma {:induction false} WeightsBySum(row: seq<Option<real>>, total: real)
    requires total != 0.0
    ensures Sum(WeightsBy(row, total)) == SumPresent(row) / total
  {
    if row != [] {
      WeightsBySum(row[1..], total);
      assert WeightsBy(row, total)[1..] == WeightsBy(row[1..], total);
      var h := if row[0].Some? then row[0].value else 0.0;
      var rest := SumPresent(row[1..]);
      assert SumPresent(row) == h + rest;
      assert WeightsBy(row, total)[0] == h / total;
      assert Sum(WeightsBy(row, total)) == h / total + rest / total;
      assert h / total + rest / total == (h + rest) / total;
    }
  }

  /** On a date with positive patrimony the weights add up to 1, NaN entries counting as 0. */
  lemma WeightsSumToOne(row: seq<Option<real>>)
    requires SumPresent(row) > 0.0
    ensures Sum(Weights(row)) == 1.0
  {
    WeightsBySum(row, SumPresent(row));
    assert SumPresent(row) / SumPresent(row) == 1.0;
  }

  /** On a date with zero patrimony every weight is 0. */
  lemma WeightsOfZeroTotal(row: seq<Option<real>>)
    requires SumPresent(row) == 0.0
    ensures forall c :: 0 <= c < |row| ==> Weights(row)[c] == 0.0
  {
  }

  /** The growth factor of one period: 1 + r, or 1 where the return is NaN (skipped). */
  function Factor(r: Option<real>): real {
    if r.Some? then 1.0 + r.value else 1.0
  }

  /** Growth of one unit over the returns in `rs`: the product of their factors. */
  function Growth(rs: seq<Option<real>>): real {
    if rs == [] then 1.0 else Growth(rs[..|rs| - 1]) * Factor(rs[|rs| - 1])
  }

  /** `(1 + returns).cumprod()`: the running product, NaN where the return is NaN. */
  function CumProd(rs: seq<Option<real>>): (r: seq<Option<real>>)
    ensures |r| == |rs|
    ensures forall k :: 0 <= k < |rs| ==> (r[k].None? <==> rs[k].None?)
  {
    if rs == [] then []
    else CumProd(rs[..|rs| - 1]) + [if rs[|rs| - 1].None? then None else Some(Growth(rs))]
  }

  /** Entry k of the cumulative product is the growth over the first k + 1 returns. */
  lemma {:induction false} CumProdAt(rs: seq<Option<real>>, k: nat)
    requires k < |rs|
    ensures CumProd(rs)[k] == if rs[k].None? then None else Some(Growth(rs[..k + 1]))
  {
    if k < |rs| - 1 {
      CumProdAt(rs[..|rs| - 1], k);
      assert rs[..|rs| - 1][..k + 1] == rs[..k + 1];
    } else {
      assert rs[..k + 1] == rs;
    }
  }

  /** A stretch whose growth is 1 (a seed of 1) does not change the growth of what follows it. */
  lemma {:induction false} GrowthSeeded(a: seq<Option<real>>, b: seq<Option<real>>)
    requires Growth(a) == 1.0
    ensures Growth(a + b) == Growth(b)
  {
    if b == [] {
      assert a + b == a;
    } else {
      var b' := b[..|b| - 1];
      assert (a + b)[..|a + b| - 1] == a + b';
      assert (a + b)[|a + b| - 1] == b[|b| - 1];
      GrowthSeeded(a, b');
    }
  }

  /** Truncating first and compounding afterwards gives the same series as compounding over the
      whole calendar and truncating afterwards, when the growth before the cut is 1. */
  lemma CumProdRestart(a: seq<Option<real>>, b: seq<Option<real>>)
    requires Growth(a) == 1.0
    ensures CumProd(a + b)[|a|..] == CumProd(b)
  {
    forall j | 0 <= j < |b| ensures CumProd(a + b)[|a|..][j] == CumProd(b)[j] {
      var ab, k := a + b, |a| + j;
      CumProdAt(ab, k);
      CumProdAt(b, j);
      assert ab[k] == b[j];
      assert ab[..k + 1] == a + b[..j + 1];
      GrowthSeeded(a, b[..j + 1]);
    }
  }

  /** Label slicing `series[d:]` of a date-indexed series: the entries dated d or later. */
  function Since<T(!new)>(s: seq<(Day, T)>, d: Day): (r: seq<(Day, T)>)
    ensures forall e :: e in r <==> e in s && e.0 >= d
    ensures |r| <= |s|
  {
    if s == [] then []
    else
      assert forall e :: e in s <==> e == s[0] || e in s[1..];
      (if s[0].0 >= d then [s[0]] else []) + Since(s[1..], d)
  }

  predicate DatesIncreasing<T>(s: seq<(Day, T)>) {
    forall i, j :: 0 <= i < j < |s| ==> s[i].0 < s[j].0
  }

  /** On an increasing index, `series[d:]` is the suffix of the entries that are not earlier than d. */
  lemma {:induction false} SinceIsSuffix<T(!new)>(s: seq<(Day, T)>, d: Day, k: nat)
    requires DatesIncreasing(s) && k <= |s|
    requires forall i :: 0 <= i < k ==> s[i].0 < d
    requires forall i :: k <= i < |s| ==> s[i].0 >= d
    ensures Since(s, d) == s[k..]
  {
    if s != [] {
      if k == 0 {
        SinceIsSuffix(s[1..], d, 0);
        assert [s[0]] + s[1..] == s;
      } else {
        SinceIsSuffix(s[1..], d, k - 1);
        assert s[1..][k - 1..] == s[k..];
      }
    }
  }

  /** On an increasing index, `series[d:]` cuts the series at the first entry not earlier than d. */
  lemma SinceSplit<T(!new)>(s: seq<(Day, T)>, d: Day) returns (k: nat)
    requires DatesIncreasing(s)
    ensures k <= |s| && Since(s, d) == s[k..]
    ensures forall i :: 0 <= i < k ==> s[i].0 < d
    ensures forall i :: k <= i < |s| ==> s[i].0 >= d
  {
    k := 0;
    while k < |s| && s[k].0 < d
      invariant k <= |s| && forall i :: 0 <= i < k ==> s[i].0 < d
    {
      k := k + 1;
    }
    forall i | k < i < |s| ensures s[i].0 >= d {
      assert s[k].0 < s[i].0;
    }
    SinceIsSuffix(s, d, k);
  }


  lemma DatesIncreasingTail<T>(s: seq<(Day, T)>)
    requires DatesIncreasing(s) && s != []
    ensures DatesIncreasing(s[1..]) && forall k :: 0 <= k < |s| - 1 ==> s[0].0 < s[1..][k].0
  {
    forall i, j | 0 <= i < j < |s| - 1 ensures s[1..][i].0 < s[1..][j].0 {
      assert s[1..][i] == s[i + 1] && s[1..][j] == s[j + 1];
    }
  }

  lemma {:induction false} DatesIncreasingCons<T>(x: (Day, T), s: seq<(Day, T)>)
    requires DatesIncreasing(s) && forall e :: e in s ==> x.0 < e.0
    ensures DatesIncreasing([x] + s)
  {
    forall i, j | 0 <= i < j < |s| + 1 ensures ([x] + s)[i].0 < ([x] + s)[j].0 {
      assert ([x] + s)[j] == s[j - 1];
      if i > 0 {
        assert ([x] + s)[i] == s[i - 1];
      } else {
        assert s[j - 1] in s;
      }
    }
  }

  /** Slicing keeps the order of an ordered series. */
  lemma {:induction false} SinceInOrder<T(!new)>(s: seq<(Day, T)>, d: Day)
    requires DatesIncreasing(s)
    ensures DatesIncreasing(Since(s, d))
  {
    if s != [] {
      var rest := s[1..];
      DatesIncreasingTail(s);
      SinceInOrder(rest, d);
      var tail := Since(rest, d);
      if s[0].0 >= d {
        forall e | e in tail ensures s[0].0 < e.0 {
          var k :| 0 <= k < |rest| && rest[k] == e;
        }
        DatesIncreasingCons(s[0], tail);
      } else {
        assert Since(s, d) == [] + tail;
        assert [] + tail == tail;
      }
    }
  }

  /** Slicing a series that starts on or after d again from d changes nothing. */
  lemma {:induction false} SinceIdempotent<T(!new)>(s: seq<(Day, T)>, d: Day)
    requires forall i :: 0 <= i < |s| ==> s[i].0 >= d
    ensures Since(s, d) == s
  {
    if s != [] {
      SinceIdempotent(s[1..], d);
      assert [s[0]] + s[1..] == s;
    }
  }
}
