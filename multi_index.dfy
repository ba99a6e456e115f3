/** Assembly of the (field, asset) price matrix from per-asset frames: the multi-index header, the
    column selection `.loc[:, dict(tuples).keys()]` and the positional relabelling. */
module MultiIndex {
  import opened Wrappers
  import opened Errors
  import opened Seqs
  import opened Calendar
  import opened Frames

  /** A column label of the matrix: (field, asset). */
  type Label = (string, string)

  /** One asset's frame from the price source: its row labels and its columns by field name. */
  datatype Ohlc = Ohlc(index: seq<Day>, columns: map<string, Column>)

  /** The relabelled matrix: its index (the dates of the concatenated frames) and its columns in
      order. */
  datatype PriceMatrix = PriceMatrix(rowLabels: seq<Day>, columns: seq<(Label, Column)>)

  /** The header the engine always asks for, in this order. */
  const OhlcFields: seq<string> := ["Close", "Open", "High", "Low"]

  /** Every price of the frame sits on one of its own row labels, as in any pandas frame. */
  predicate Labelled(frame: Ohlc) {
    forall f, d :: f in frame.columns && d in frame.columns[f] ==> d in frame.index
  }

  /** A frame from the price source: well formed, and carrying the four price fields. */
  predicate IsOhlc(frame: Ohlc) {
    Labelled(frame) && forall f :: f in OhlcFields ==> f in frame.columns
  }

  lemma OhlcFrames(frames: seq<Ohlc>)
    requires forall j :: 0 <= j < |frames| ==> IsOhlc(frames[j])
    ensures AllFields(frames, OhlcFields)
  {
  }

  /** One row of the cross product: `head` with every sub-header entry. */
  function Pairs<H, S>(head: H, s: seq<S>): (r: seq<(H, S)>)
    ensures |r| == |s|
  {
    seq(|s|, j requires 0 <= j < |s| => (head, s[j]))
  }

  /** The header-major cross product of `h` and `s`. */
  function CrossProduct<H, S>(h: seq<H>, s: seq<S>): seq<(H, S)> {
    if h == [] then [] else CrossProduct(h[..|h| - 1], s) + Pairs(h[|h| - 1], s)
  }

  /** Every pair of the cross product takes its head from `h` and its second part from `s`. */
  lemma {:induction false} CrossProductMembers<H, S>(h: seq<H>, s: seq<S>)
    ensures forall c :: 0 <= c < |CrossProduct(h, s)| ==> CrossProduct(h, s)[c].0 in h && CrossProduct(h, s)[c].1 in s
  {
    if h != [] {
      CrossProductMembers(h[..|h| - 1], s);
      assert forall x :: x in h[..|h| - 1] ==> x in h;
    }
  }

  lemma {:induction false} CrossProductLength<H, S>(h: seq<H>, s: seq<S>)
    ensures |CrossProduct(h, s)| == Offset(|h|, |s|)
  {
    if h != [] {
      CrossProductLength(h[..|h| - 1], s);
    }
  }

  /** The pair at position i * |s| + j is (h[i], s[j]). */
  lemma {:induction false} CrossProductAt<H, S>(h: seq<H>, s: seq<S>, i: nat, j: nat)
    requires i < |h| && j < |s|
    ensures Offset(i, |s|) + j < |CrossProduct(h, s)|
    ensures CrossProduct(h, s)[Offset(i, |s|) + j] == (h[i], s[j])
  {
    var init := h[..|h| - 1];
    CrossProductLength(init, s);
    CrossProductLength(h, s);
    BlockIndex(i, j, |h|, |s|);
    if i < |h| - 1 {
      CrossProductAt(init, s, i, j);
      BlockIndex(i, j, |h| - 1, |s|);
    }
  }

  /** `_build_multi_index_tuples`: the nested loops append (head, sub_head) for every head, then
      every sub-head. */
  method BuildMultiIndexTuples<H, S>(header: seq<H>, subHeader: seq<S>) returns (tuples: seq<(H, S)>)
    ensures tuples == CrossProduct(header, subHeader)
    ensures |tuples| == |header| * |subHeader|
  {
    tuples := [];
    var i := 0;
    while i < |header|
      invariant 0 <= i <= |header|
      invariant tuples == CrossProduct(header[..i], subHeader)
    {
      var j := 0;
      while j < |subHeader|
        invariant 0 <= j <= |subHeader|
        invariant tuples == CrossProduct(header[..i], subHeader) + Pairs(header[i], subHeader[..j])
      {
        tuples := tuples + [(header[i], subHeader[j])];
        j := j + 1;
      }
      assert subHeader[..j] == subHeader;
      assert header[..i + 1][..i] == header[..i];
      i := i + 1;
    }
    assert header[..i] == header;
    CrossProductLength(header, subHeader);
    OffsetIsProduct(|header|, |subHeader|);
  }

  function Firsts<H, S>(tuples: seq<(H, S)>): (r: seq<H>)
    ensures |r| == |tuples|
  {
    seq(|tuples|, k requires 0 <= k < |tuples| => tuples[k].0)
  }

  /** `dict(tuples).keys()`: the distinct first components, in order of first appearance. */
  function DictKeys<H(==,!new), S>(tuples: seq<(H, S)>): seq<H> {
    Distinct(Firsts(tuples))
  }

  /** n copies of y. */
  function Repeat<T>(y: T, n: nat): (r: seq<T>)
    ensures |r| == n && forall k :: 0 <= k < n ==> r[k] == y
  {
    if n == 0 then [] else Repeat(y, n - 1) + [y]
  }

  lemma FirstsAppend<H, S>(a: seq<(H, S)>, b: seq<(H, S)>)
    ensures Firsts(a + b) == Firsts(a) + Firsts(b)
  {
  }

  lemma FirstsPairs<H, S>(y: H, s: seq<S>)
    ensures Firsts(Pairs(y, s)) == Repeat(y, |s|)
  {
  }

  /** Appending a run of copies of y adds to the distinct elements what appending one y adds. */
  lemma {:induction false} DistinctRun<T(!new)>(x: seq<T>, y: T, n: nat)
    requires n > 0
    ensures Distinct(x + Repeat(y, n)) == Distinct(x + [y])
  {
    if n > 1 {
      DistinctRun(x, y, n - 1);
      var z := x + Repeat(y, n);
      assert z[..|z| - 1] == x + Repeat(y, n - 1);
      assert z[|z| - 1] == y;
      assert y in Distinct(x + [y]);
    } else {
      assert Repeat(y, n) == [y];
    }
  }

  /** The distinct fields of a non-empty cross product are the distinct header entries. */
  lemma {:induction false} DictKeysOfCrossProduct<H(!new), S>(h: seq<H>, s: seq<S>)
    requires |s| > 0
    ensures DictKeys(CrossProduct(h, s)) == Distinct(h)
  {
    if h != [] {
      var init, last := h[..|h| - 1], h[|h| - 1];
      DictKeysOfCrossProduct(init, s);
      var f := Firsts(CrossProduct(init, s));
      FirstsAppend(CrossProduct(init, s), Pairs(last, s));
      FirstsPairs(last, s);
      DistinctRun(f, last, |s|);
      var g := f + [last];
      assert g[..|g| - 1] == f && g[|g| - 1] == last;
      assert h[..|h| - 1] == init && h[|h| - 1] == last;
    }
  }

  /** With the fixed header the selection keys are exactly Close, Open, High, Low, in that order. */
  lemma OhlcSelectionKeys<S>(s: seq<S>)
    requires |s| > 0
    ensures DictKeys(CrossProduct(OhlcFields, s)) == OhlcFields
  {
    DictKeysOfCrossProduct(OhlcFields, s);
    DistinctOfNoDup(OhlcFields);
  }

  /** The columns labelled `field` across the concatenated frames, in frame order. */
  function ColumnsNamed(frames: seq<Ohlc>, field: string): (r: seq<Column>)
    ensures |r| <= |frames|
  {
    if frames == [] then []
    else (if field in frames[0].columns then [frames[0].columns[field]] else []) + ColumnsNamed(frames[1..], field)
  }

  predicate HasField(frames: seq<Ohlc>, field: string) {
    forall j :: 0 <= j < |frames| ==> field in frames[j].columns
  }

  /** When every frame has the field, frame j's column is the j-th selected one; otherwise fewer
      columns than frames are selected. */
  lemma {:induction false} ColumnsNamedAll(frames: seq<Ohlc>, field: string)
    ensures HasField(frames, field) ==> (|ColumnsNamed(frames, field)| == |frames| &&
      forall j :: 0 <= j < |frames| ==> ColumnsNamed(frames, field)[j] == frames[j].columns[field])
    ensures !HasField(frames, field) ==> |ColumnsNamed(frames, field)| < |frames|
  {
    if frames != [] {
      ColumnsNamedAll(frames[1..], field);
      assert forall j :: 1 <= j < |frames| ==> frames[j] == frames[1..][j - 1];
    }
  }

  /** `concat(frames, axis=1).loc[:, keys]`: for each key in order, every frame's column of that name;
      a key that no frame has is a KeyError. */
  function SelectColumns(frames: seq<Ohlc>, keys: seq<string>): Result<seq<Column>, Error> {
    if keys == [] then Success([])
    else
      var block := ColumnsNamed(frames, keys[0]);
      if block == [] then Failure(MissingColumn(keys[0]))
      else
        var rest :- SelectColumns(frames, keys[1..]);
        Success(block + rest)
  }

  /** Every frame has every one of `keys`. */
  predicate AllFields(frames: seq<Ohlc>, keys: seq<string>) {
    forall i, j :: 0 <= i < |keys| && 0 <= j < |frames| ==> keys[i] in frames[j].columns
  }

  /** All keys present in all frames: the selection succeeds with |keys| blocks of |frames| columns. */
  lemma {:induction false} SelectColumnsAll(frames: seq<Ohlc>, keys: seq<string>)
    requires frames != [] && AllFields(frames, keys)
    ensures SelectColumns(frames, keys).Success?
    ensures |SelectColumns(frames, keys).value| == Offset(|keys|, |frames|)
    ensures keys != [] ==>
      SelectColumns(frames, keys).value == ColumnsNamed(frames, keys[0]) + SelectColumns(frames, keys[1..]).value
  {
    if keys != [] {
      assert HasField(frames, keys[0]);
      ColumnsNamedAll(frames, keys[0]);
      assert AllFields(frames, keys[1..]) by {
        forall i, j | 0 <= i < |keys| - 1 && 0 <= j < |frames| ensures keys[1..][i] in frames[j].columns {
          assert keys[1..][i] == keys[i + 1];
        }
      }
      SelectColumnsAll(frames, keys[1..]);
    }
  }

  /** Every key present everywhere: so is the first one, and so are the remaining ones. */
  lemma AllFieldsTail(frames: seq<Ohlc>, keys: seq<string>)
    requires keys != [] && AllFields(frames, keys)
    ensures HasField(frames, keys[0]) && AllFields(frames, keys[1..])
  {
    forall i, j | 0 <= i < |keys| - 1 && 0 <= j < |frames| ensures keys[1..][i] in frames[j].columns {
      assert keys[1..][i] == keys[i + 1];
    }
  }

  /** All keys present in all frames: frame j's column of key i lands at position i * |frames| + j. */
  lemma {:induction false} SelectColumnsAt(frames: seq<Ohlc>, keys: seq<string>, i: nat, j: nat)
    requires frames != [] && AllFields(frames, keys)
    requires i < |keys| && j < |frames|
    ensures SelectColumns(frames, keys).Success?
    ensures Offset(i, |frames|) + j < |SelectColumns(frames, keys).value|
    ensures SelectColumns(frames, keys).value[Offset(i, |frames|) + j] == frames[j].columns[keys[i]]
  {
    AllFieldsTail(frames, keys);
    SelectColumnsAll(frames, keys);
    ColumnsNamedAll(frames, keys[0]);
    if i > 0 {
      SelectColumnsAt(frames, keys[1..], i - 1, j);
      assert keys[1..][i - 1] == keys[i];
      AppendIndex(ColumnsNamed(frames, keys[0]), SelectColumns(frames, keys[1..]).value, Offset(i - 1, |frames|) + j);
    }
  }

  /** The selection never has more columns than keys times frames, and has fewer when some frame
      lacks some key. */
  lemma {:induction false} SelectColumnsShort(frames: seq<Ohlc>, keys: seq<string>)
    requires SelectColumns(frames, keys).Success?
    ensures |SelectColumns(frames, keys).value| <= Offset(|keys|, |frames|)
    ensures (exists k :: 0 <= k < |keys| && !HasField(frames, keys[k])) ==>
      |SelectColumns(frames, keys).value| < Offset(|keys|, |frames|)
  {
    if keys != [] {
      ColumnsNamedAll(frames, keys[0]);
      SelectColumnsShort(frames, keys[1..]);
      assert forall k :: 1 <= k < |keys| ==> keys[k] == keys[1..][k - 1];
    }
  }

  function Zip<A, B>(a: seq<A>, b: seq<B>): (r: seq<(A, B)>)
    requires |a| == |b|
    ensures |r| == |a| && forall c :: 0 <= c < |a| ==> r[c] == (a[c], b[c])
  {
    seq(|a|, c requires 0 <= c < |a| => (a[c], b[c]))
  }

  /** The index of `pd.concat(frames, axis=1)`: the outer join of the frames' row labels, each date
      once, in date order. */
  function RowUnion(frames: seq<Ohlc>): (r: seq<Day>)
    ensures Increasing(r)
    ensures forall d :: d in r <==> exists j :: 0 <= j < |frames| && d in frames[j].index
  {
    if frames == [] then []
    else
      var rest := RowUnion(frames[1..]);
      assert forall d :: (exists j :: 0 <= j < |frames| && d in frames[j].index) <==>
                         d in frames[0].index || d in rest by {
        forall d | d in rest ensures exists j :: 0 <= j < |frames| && d in frames[j].index {
          var j :| 0 <= j < |frames[1..]| && d in frames[1..][j].index;
          assert frames[1..][j] == frames[j + 1];
        }
        forall d, j | 0 < j < |frames| && d in frames[j].index ensures d in rest {
          assert frames[1..][j - 1] == frames[j];
        }
      }
      DayUnion(frames[0].index + rest)
  }

  /** `_build_multi_index_data_frame` (and `build_multi_index_data_frame`): the header is the cross
      product, the selected columns are put side by side, and the header replaces their labels by
      position. */
  function BuildMultiIndexDataFrame(frames: seq<Ohlc>, subHeader: seq<string>, headerColumns: seq<string>)
    : (r: Result<PriceMatrix, Error>)
    ensures headerColumns == [] || subHeader == [] || frames == [] ==> r.Failure?
    ensures r.Success? ==>
      |r.value.columns| == |CrossProduct(headerColumns, subHeader)| &&
      (forall c :: 0 <= c < |r.value.columns| ==> r.value.columns[c].0 == CrossProduct(headerColumns, subHeader)[c]) &&
      Increasing(r.value.rowLabels) &&
      forall d :: d in r.value.rowLabels <==> exists j :: 0 <= j < |frames| && d in frames[j].index
  {
    CrossProductLength(headerColumns, subHeader);
    OffsetZero(|headerColumns|);
    var tuples := CrossProduct(headerColumns, subHeader);
    if tuples == [] then Failure(EmptyMultiIndex)
    else if frames == [] then Failure(NoObjectsToConcatenate)
    else
      var selected :- SelectColumns(frames, DictKeys(tuples));
      if |selected| != |tuples| then Failure(LengthMismatch(|selected|, |tuples|))
      else Success(PriceMatrix(RowUnion(frames), Zip(tuples, selected)))
  }

  /** One frame per sub-header entry, each with every header field: the matrix is built with
      |header| * |sub-header| columns. */
  lemma BuildMultiIndexDataFrameSucceeds(frames: seq<Ohlc>, subHeader: seq<string>, header: seq<string>)
    requires |frames| == |subHeader| > 0 && |header| > 0 && NoDup(header)
    requires AllFields(frames, header)
    ensures SelectColumns(frames, header).Success?
    ensures |CrossProduct(header, subHeader)| == |SelectColumns(frames, header).value|
    ensures BuildMultiIndexDataFrame(frames, subHeader, header).Success?
    ensures BuildMultiIndexDataFrame(frames, subHeader, header).value.columns
      == Zip(CrossProduct(header, subHeader), SelectColumns(frames, header).value)
    ensures |BuildMultiIndexDataFrame(frames, subHeader, header).value.columns| == Offset(|header|, |subHeader|)
  {
    CrossProductLength(header, subHeader);
    BlockIndex(0, 0, |header|, |subHeader|);
    DictKeysOfCrossProduct(header, subHeader);
    DistinctOfNoDup(header);
    SelectColumnsAll(frames, header);
  }

  /** In the built matrix, column (f, sub_header[j]) at position i * |sub-header| + j holds frame j's
      f column, f being header[i]: the positional relabelling pairs each asset with its own frame. */
  lemma BuildMultiIndexDataFrameColumn(frames: seq<Ohlc>, subHeader: seq<string>, header: seq<string>, i: nat, j: nat)
    requires |frames| == |subHeader| > 0 && |header| > 0 && NoDup(header)
    requires AllFields(frames, header)
    requires i < |header| && j < |subHeader|
    ensures BuildMultiIndexDataFrame(frames, subHeader, header).Success?
    ensures Offset(i, |subHeader|) + j < |BuildMultiIndexDataFrame(frames, subHeader, header).value.columns|
    ensures BuildMultiIndexDataFrame(frames, subHeader, header).value.columns[Offset(i, |subHeader|) + j]
      == ((header[i], subHeader[j]), frames[j].columns[header[i]])
  {
    var tuples := CrossProduct(header, subHeader);
    var p := Offset(i, |subHeader|) + j;
    CrossProductAt(header, subHeader, i, j);
    SelectColumnsAt(frames, header, i, j);
    var selected := SelectColumns(frames, header).value;
    BuildMultiIndexDataFrameSucceeds(frames, subHeader, header);
    var cols := BuildMultiIndexDataFrame(frames, subHeader, header).value.columns;
    assert cols[p] == (tuples[p], selected[p]);
  }

  /** With the fixed Close/Open/High/Low header and one OHLC frame per asset, the matrix has four
      columns per asset, and column (field i, asset j) holds frame j's column of that field. */
  lemma BuildOhlcColumn(frames: seq<Ohlc>, assets: seq<string>, i: nat, j: nat)
    requires |frames| == |assets| > 0 && forall k :: 0 <= k < |frames| ==> IsOhlc(frames[k])
    requires i < |OhlcFields| && j < |assets|
    ensures BuildMultiIndexDataFrame(frames, assets, OhlcFields).Success?
    ensures |BuildMultiIndexDataFrame(frames, assets, OhlcFields).value.columns| == Offset(4, |assets|)
    ensures OhlcFields[i] in frames[j].columns
    ensures Offset(i, |assets|) + j < |BuildMultiIndexDataFrame(frames, assets, OhlcFields).value.columns|
    ensures BuildMultiIndexDataFrame(frames, assets, OhlcFields).value.columns[Offset(i, |assets|) + j]
      == ((OhlcFields[i], assets[j]), frames[j].columns[OhlcFields[i]])
  {
    OhlcFrames(frames);
    assert NoDup(OhlcFields);
    BuildMultiIndexDataFrameSucceeds(frames, assets, OhlcFields);
    BuildMultiIndexDataFrameColumn(frames, assets, OhlcFields, i, j);
  }

  /** One frame per sub-header entry but some frame lacks a header field: the build fails (KeyError
      when no frame has it, a length mismatch otherwise). */
  lemma BuildMultiIndexDataFrameMissingField(frames: seq<Ohlc>, subHeader: seq<string>, header: seq<string>, i: nat)
    requires |frames| == |subHeader| > 0 && NoDup(header)
    requires i < |header| && !HasField(frames, header[i])
    ensures BuildMultiIndexDataFrame(frames, subHeader, header).Failure?
  {
    CrossProductLength(header, subHeader);
    BlockIndex(0, 0, |header|, |subHeader|);
    DictKeysOfCrossProduct(header, subHeader);
    DistinctOfNoDup(header);
    if SelectColumns(frames, header).Success? {
      SelectColumnsShort(frames, header);
    }
  }
}
