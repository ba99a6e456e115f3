/** Sequence operations the table code relies on: distinct elements, failing maps, flattening, sums. */
module Seqs {
  import opened Wrappers

  predicate NoDup<T(==)>(s: seq<T>) {
    forall i, j :: 0 <= i < j < |s| ==> s[i] != s[j]
  }

  /** The distinct elements of `s` in order of first appearance (`dict.fromkeys`, `Series.unique`). */
  function Distinct<T(==,!new)>(s: seq<T>): (r: seq<T>)
    ensures NoDup(r)
    ensures forall x :: x in r <==> x in s
    ensures |r| <= |s|
  {
    if s == [] then []
    else
      var p := Distinct(s[..|s| - 1]);
      assert forall x :: x in s <==> x in s[..|s| - 1] || x == s[|s| - 1];
      if s[|s| - 1] in p then p else p + [s[|s| - 1]]
  }

  /** Duplicate-free input is its own list of distinct elements. */
  lemma {:induction false} DistinctOfNoDup<T(!new)>(s: seq<T>)
    requires NoDup(s)
    ensures Distinct(s) == s
  {
    if s != [] {
      var init := s[..|s| - 1];
      assert NoDup(init);
      DistinctOfNoDup(init);
      assert s[|s| - 1] !in init;
      assert init + [s[|s| - 1]] == s;
    }
  }

  /** The values of a sequence of results, in order, or the first failure among them (a loop that
      raises on its first failing step). */
  function Collect<T, E>(rs: seq<Result<T, E>>): Result<seq<T>, E> {
    if rs == [] then Success([])
    else
      var init :- Collect(rs[..|rs| - 1]);
      var last :- rs[|rs| - 1];
      Success(init + [last])
  }

  /** Collecting succeeds exactly when every step does, and then keeps every step's value in place;
      otherwise its error is that of the first failing step. */
  lemma {:induction false} CollectCorrect<T, E>(rs: seq<Result<T, E>>)
    ensures Collect(rs).Success? <==> forall k :: 0 <= k < |rs| ==> rs[k].Success?
    ensures Collect(rs).Success? ==>
      |Collect(rs).value| == |rs| && forall k :: 0 <= k < |rs| ==> Collect(rs).value[k] == rs[k].value
    ensures Collect(rs).Failure? ==>
      exists k :: 0 <= k < |rs| && rs[k].Failure? && Collect(rs).error == rs[k].error &&
        forall j :: 0 <= j < k ==> rs[j].Success?
  {
    if rs != [] {
      var init := rs[..|rs| - 1];
      CollectCorrect(init);
      assert forall k :: 0 <= k < |init| ==> init[k] == rs[k];
    }
  }

  /** Once a prefix of the steps fails, so does the whole, with the same error. */
  lemma {:induction false} CollectFailurePrefix<T, E>(rs: seq<Result<T, E>>, k: nat)
    requires k <= |rs| && Collect(rs[..k]).Failure?
    ensures Collect(rs) == Collect(rs[..k])
  {
    if k < |rs| {
      var init := rs[..|rs| - 1];
      assert init[..k] == rs[..k];
      CollectFailurePrefix(init, k);
    } else {
      assert rs[..k] == rs;
    }
  }

  /** One more successful step extends the collected values by its value. */
  lemma CollectStep<T, E>(rs: seq<Result<T, E>>, k: nat)
    requires k < |rs|
    ensures Collect(rs[..k + 1]) ==
      if Collect(rs[..k]).Failure? then Collect(rs[..k])
      else if rs[k].Failure? then Failure(rs[k].error)
      else Success(Collect(rs[..k]).value + [rs[k].value])
  {
    assert rs[..k + 1][..k] == rs[..k];
  }

  /** Concatenation of a list of lists (`[*a, *b, ...]`, `data_frames += [...]`). */
  function Flatten<T>(ss: seq<seq<T>>): seq<T> {
    if ss == [] then [] else ss[0] + Flatten(ss[1..])
  }

  /** i * n written as repeated addition: the start of block i in a row-major layout of blocks of
      length n. Positions built from it stay linear for the solver. */
  function Offset(i: nat, n: nat): nat {
    if i == 0 then 0 else Offset(i - 1, n) + n
  }

  /** Past the first part of a concatenation, positions index the second part. */
  lemma AppendIndex<T>(a: seq<T>, b: seq<T>, p: nat)
    requires p < |b|
    ensures |a| + p < |a + b| && (a + b)[|a| + p] == b[p]
  {
  }

  lemma {:induction false} OffsetZero(i: nat)
    ensures Offset(i, 0) == 0
  {
    if i > 0 {
      OffsetZero(i - 1);
    }
  }

  lemma {:induction false} OffsetIsProduct(i: nat, n: nat)
    ensures Offset(i, n) == i * n
  {
    if i > 0 {
      OffsetIsProduct(i - 1, n);
    }
  }

  /** Position j of block i of an m-block layout is inside the layout. */
  lemma {:induction false} BlockIndex(i: nat, j: nat, m: nat, n: nat)
    requires i < m && j < n
    ensures Offset(i, n) + j < Offset(m, n)
  {
    if i < m - 1 {
      BlockIndex(i, j, m - 1, n);
    }
  }

  function Sum(s: seq<real>): real {
    if s == [] then 0.0 else s[0] + Sum(s[1..])
  }

  /** Python's `<` on strings: lexicographic by code point, a proper prefix first. */
  predicate StrLess(a: string, b: string) {
    if a == [] then b != []
    else if b == [] then false
    else if a[0] != b[0] then a[0] < b[0]
    else StrLess(a[1..], b[1..])
  }

  lemma {:induction false} StrLessTotal(a: string, b: string)
    requires a != b
    ensures StrLess(a, b) || StrLess(b, a)
  {
    if a != [] && b != [] && a[0] == b[0] {
      assert a == [a[0]] + a[1..] && b == [b[0]] + b[1..];
      StrLessTotal(a[1..], b[1..]);
    }
  }

  predicate StrictlySorted(s: seq<string>) {
    forall i :: 0 < i < |s| ==> StrLess(s[i - 1], s[i])
  }

  function Insert(x: string, s: seq<string>): (r: seq<string>)
    requires StrictlySorted(s)
    ensures StrictlySorted(r)
    ensures forall y :: y in r <==> y == x || y in s
    ensures r != [] && (r[0] == x || (s != [] && r[0] == s[0]))
  {
    if s == [] then [x]
    else if x == s[0] then s
    else if StrLess(x, s[0]) then [x] + s
    else
      StrLessTotal(x, s[0]);
      var t := Insert(x, s[1..]);
      assert forall y :: y in s <==> y == s[0] || y in s[1..];
      [s[0]] + t
  }

  /** The column order `pivot` produces: the distinct names, sorted. */
  function SortedDistinct(s: seq<string>): (r: seq<string>)
    ensures StrictlySorted(r)
    ensures forall x :: x in r <==> x in s
  {
    if s == [] then []
    else
      assert forall x :: x in s <==> x in s[..|s| - 1] || x == s[|s| - 1];
      Insert(s[|s| - 1], SortedDistinct(s[..|s| - 1]))
  }

  /** A strictly sorted list of names has no repeats. */
  lemma {:induction false} StrictlySortedNoDup(s: seq<string>)
    requires StrictlySorted(s)
    ensures NoDup(s)
  {
    if |s| > 1 {
      var t := s[1..];
      assert StrictlySorted(t) by {
        forall i | 0 < i < |t| ensures StrLess(t[i - 1], t[i]) { assert t[i - 1] == s[i] && t[i] == s[i + 1]; }
      }
      StrictlySortedNoDup(t);
      forall j | 0 < j < |s| ensures s[0] != s[j] {
        SortedHeadLess(s, j);
      }
      forall i, j | 0 <= i < j < |s| ensures s[i] != s[j] {
        if i > 0 { assert s[i] == t[i - 1] && s[j] == t[j - 1]; }
      }
    }
  }

  lemma {:induction false} StrLessTrans(a: string, b: string, c: string)
    requires StrLess(a, b) && StrLess(b, c)
    ensures StrLess(a, c)
  {
    if a != [] && b != [] && c != [] && a[0] == b[0] && b[0] == c[0] {
      StrLessTrans(a[1..], b[1..], c[1..]);
    }
  }

  lemma {:induction false} StrLessIrreflexive(a: string)
    ensures !StrLess(a, a)
  {
    if a != [] { StrLessIrreflexive(a[1..]); }
  }

  lemma {:induction false} SortedHeadLess(s: seq<string>, j: nat)
    requires StrictlySorted(s) && 0 < j < |s|
    ensures StrLess(s[0], s[j])
    ensures s[0] != s[j]
  {
    if j > 1 {
      SortedHeadLess(s, j - 1);
      StrLessTrans(s[0], s[j - 1], s[j]);
    }
    if s[0] == s[j] { StrLessIrreflexive(s[0]); }
  }
}
