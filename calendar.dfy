/** Calendar dates as day numbers and pandas' business-day frequency ('B': Monday to Friday). */
module Calendar {
  import opened Wrappers

  /** A calendar date; day 0 is 1970-01-01, a Thursday. */
  type Day = int

  /** 0 is Monday, 6 is Sunday. */
  function Weekday(d: Day): int {
    (d + 3) % 7
  }

  /** A day of pandas' 'B' frequency. No holiday calendar is applied. */
  predicate IsBusinessDay(d: Day) {
    Weekday(d) < 5
  }

  /** 1 January 2018 (a Monday), the fixed start of the price history the portfolio requests. */
  const Jan1st2018: Day := 17532

  predicate Increasing(s: seq<Day>) {
    forall i, j :: 0 <= i < j < |s| ==> s[i] < s[j]
  }

  lemma IncreasingTail(s: seq<Day>)
    requires Increasing(s) && s != []
    ensures Increasing(s[1..]) && forall d :: d in s[1..] ==> s[0] < d
  {
    assert forall i :: 0 <= i < |s| - 1 ==> s[1..][i] == s[i + 1];
  }

  lemma IncreasingHeadLeast(s: seq<Day>)
    requires Increasing(s) && s != []
    ensures forall d :: d in s ==> s[0] <= d
  {
  }

  lemma {:induction false} IncreasingCons(x: Day, s: seq<Day>)
    requires Increasing(s) && forall d :: d in s ==> x < d
    ensures Increasing([x] + s)
  {
    forall i, j | 0 <= i < j < |s| + 1 ensures ([x] + s)[i] < ([x] + s)[j] {
      assert ([x] + s)[j] == s[j - 1];
      if i > 0 {
        assert ([x] + s)[i] == s[i - 1];
      } else {
        assert s[j - 1] in s;
      }
    }
  }

  /** `x` put into its place in an increasing list of days, unless it is already there. */
  function InsertDay(x: Day, s: seq<Day>): (r: seq<Day>)
    requires Increasing(s)
    ensures Increasing(r)
    ensures forall d :: d in r <==> d == x || d in s
  {
    if s == [] then [x]
    else if x == s[0] then s
    else
      IncreasingHeadLeast(s);
      if x < s[0] then
        IncreasingCons(x, s);
        [x] + s
      else
        IncreasingTail(s);
        var t := InsertDay(x, s[1..]);
        assert forall d :: d in s <==> d == s[0] || d in s[1..];
        IncreasingCons(s[0], t);
        [s[0]] + t
  }

  /** The days of `s`, each once, in date order: the index of an outer join on dates. */
  function DayUnion(s: seq<Day>): (r: seq<Day>)
    ensures Increasing(r)
    ensures forall d :: d in r <==> d in s
  {
    if s == [] then []
    else
      assert forall d :: d in s <==> d in s[..|s| - 1] || d == s[|s| - 1];
      InsertDay(s[|s| - 1], DayUnion(s[..|s| - 1]))
  }

  /** `pd.date_range(lo, hi, freq='B')`: every business day from lo to hi, in order. */
  function BusinessDays(lo: Day, hi: Day): (r: seq<Day>)
    ensures forall d :: d in r <==> lo <= d <= hi && IsBusinessDay(d)
    ensures Increasing(r)
    decreases hi - lo
  {
    if lo > hi then []
    else
      var rest := BusinessDays(lo + 1, hi);
      assert forall k :: 0 <= k < |rest| ==> lo < rest[k] by {
        forall k | 0 <= k < |rest| ensures lo < rest[k] { assert rest[k] in rest; }
      }
      (if IsBusinessDay(lo) then [lo] else []) + rest
  }

  /** The index that `asfreq('B')` gives a table whose row labels are `labels`: the business days
      from the earliest label to the latest one (nothing when there are no labels). */
  function AsFreqB(labels: seq<Day>): (r: seq<Day>)
    ensures Increasing(r)
    ensures labels == [] ==> r == []
    ensures labels != [] ==> forall d :: d in r <==> Min(labels) <= d <= Max(labels) && IsBusinessDay(d)
  {
    if labels == [] then [] else BusinessDays(Min(labels), Max(labels))
  }

  function Min(s: seq<Day>): (m: Day)
    requires s != []
    ensures m in s && forall x :: x in s ==> m <= x
  {
    if |s| == 1 then s[0]
    else
      var m' := Min(s[1..]);
      assert forall x :: x in s ==> x == s[0] || x in s[1..];
      if s[0] <= m' then s[0] else m'
  }

  function Max(s: seq<Day>): (m: Day)
    requires s != []
    ensures m in s && forall x :: x in s ==> x <= m
  {
    if |s| == 1 then s[0]
    else
      var m' := Max(s[1..]);
      assert forall x :: x in s ==> x == s[0] || x in s[1..];
      if s[0] >= m' then s[0] else m'
  }

  /** Position of a label in an index (a pandas `.loc` lookup); None is the KeyError. */
  function IndexOf(s: seq<Day>, d: Day): (r: Option<nat>)
    ensures r.None? <==> d !in s
    ensures r.Some? ==> r.value < |s| && s[r.value] == d && forall i :: 0 <= i < r.value ==> s[i] != d
  {
    if s == [] then None
    else if s[0] == d then Some(0)
    else
      var r' := IndexOf(s[1..], d);
      assert forall x :: x in s ==> x == s[0] || x in s[1..];
      if r'.None? then None
      else
        assert forall i :: 1 <= i <= r'.value ==> s[i] == s[1..][i - 1];
        Some(r'.value + 1)
  }

  /** In an increasing index the position found is the only one holding the label. */
  lemma IndexOfIncreasing(s: seq<Day>, k: nat)
    requires Increasing(s) && k < |s|
    ensures IndexOf(s, s[k]) == Some(k)
  {
  }
}
