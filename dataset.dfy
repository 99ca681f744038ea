/** The data preparation both training scripts run on the exported article
    table, and the train/test partition they take from it. */
module Dataset {
  import opened Util

  /** One row of the exported table: the `Date` sort key, the article
      `summary` (missing when the cell is empty), and the stock's open and
      close prices on that day. */
  datatype Row = Row(date: int, summary: Option<string>, open: int, close: int)

  /** A prepared row with its `price_movement` label. */
  datatype Example = Example(row: Row, movement: int)

  /** `df.head(10000)`. */
  const RowCap: nat := 10000

  function Head(table: seq<Row>, n: nat): (h: seq<Row>)
    ensures |h| == if |table| < n then |table| else n
    ensures h == table[..|h|]
  {
    if |table| < n then table else table[..n]
  }

  predicate DateSorted(s: seq<Row>) {
    forall i, j :: 0 <= i < j < |s| ==> s[i].date <= s[j].date
  }

  /** `t` is what `sort_values(by='Date')` may leave from `s`: the same rows,
      dates non-decreasing. The default sort is not stable, so rows with equal
      dates may come in any order. */
  predicate IsDateSortOf(s: seq<Row>, t: seq<Row>) {
    multiset(s) == multiset(t) && DateSorted(t)
  }

  /** Putting the first row of a sorted sequence before sorted rows taken
      from the rest keeps the result sorted. */
  lemma ConsSorted(s: seq<Row>, rest: seq<Row>)
    requires s != []
    requires forall x :: x in rest ==> x in s[1..]
    ensures DateSorted(s) && DateSorted(rest) ==> DateSorted([s[0]] + rest)
  {
    if DateSorted(s) && DateSorted(rest) {
      var t := [s[0]] + rest;
      forall i, j | 0 <= i < j < |t|
        ensures t[i].date <= t[j].date
      {
        if i == 0 {
          assert t[j] in rest;
          var m :| 0 <= m < |s[1..]| && s[1..][m] == t[j];
          assert s[m + 1] == t[j];
        } else {
          assert t[i] == rest[i - 1] && t[j] == rest[j - 1];
        }
      }
    }
  }

  /** `df.dropna(subset=['summary'])`. */
  function DropMissingSummary(s: seq<Row>): (r: seq<Row>)
    ensures forall x :: x in r <==> x in s && x.summary.Some?
    ensures multiset(r) <= multiset(s)
    ensures DateSorted(s) ==> DateSorted(r)
  {
    if s == [] then []
    else
      var rest := DropMissingSummary(s[1..]);
      assert s == [s[0]] + s[1..];
      if s[0].summary.Some? then ConsSorted(s, rest); [s[0]] + rest else rest
  }

  /** `df[df['article_price_open_stock'] != df['article_price_close_stock']]`. */
  function DropUnchangedPrice(s: seq<Row>): (r: seq<Row>)
    ensures forall x :: x in r <==> x in s && x.open != x.close
    ensures multiset(r) <= multiset(s)
    ensures DateSorted(s) ==> DateSorted(r)
  {
    if s == [] then []
    else
      var rest := DropUnchangedPrice(s[1..]);
      assert s == [s[0]] + s[1..];
      if s[0].open != s[0].close then ConsSorted(s, rest); [s[0]] + rest else rest
  }

  /** Every row with a summary survives with all its copies; the others
      are gone. */
  lemma {:induction false} DropMissingSummaryCounts(s: seq<Row>)
    ensures forall x :: multiset(DropMissingSummary(s))[x] == if x.summary.Some? then multiset(s)[x] else 0
    decreases |s|
  {
    if s != [] {
      DropMissingSummaryCounts(s[1..]);
      assert s == [s[0]] + s[1..];
      assert multiset(s) == multiset{s[0]} + multiset(s[1..]);
      if s[0].summary.Some? {
        var rest := DropMissingSummary(s[1..]);
        assert DropMissingSummary(s) == [s[0]] + rest;
        assert multiset([s[0]] + rest) == multiset{s[0]} + multiset(rest);
      }
    }
  }

  /** Every row whose prices differ survives with all its copies; the
      others are gone. */
  lemma {:induction false} DropUnchangedPriceCounts(s: seq<Row>)
    ensures forall x :: multiset(DropUnchangedPrice(s))[x] == if x.open != x.close then multiset(s)[x] else 0
    decreases |s|
  {
    if s != [] {
      DropUnchangedPriceCounts(s[1..]);
      assert s == [s[0]] + s[1..];
      assert multiset(s) == multiset{s[0]} + multiset(s[1..]);
      if s[0].open != s[0].close {
        var rest := DropUnchangedPrice(s[1..]);
        assert DropUnchangedPrice(s) == [s[0]] + rest;
        assert multiset([s[0]] + rest) == multiset{s[0]} + multiset(rest);
      }
    }
  }

  lemma Associative<T>(h: seq<T>, x: seq<T>, y: seq<T>)
    ensures h + (x + y) == (h + x) + y
  {
  }

  /** Dropping rows without a summary keeps the order of the rest: filtering
      a concatenation is concatenating the filtered parts. */
  lemma {:induction false} DropMissingSummaryConcat(a: seq<Row>, b: seq<Row>)
    ensures DropMissingSummary(a + b) == DropMissingSummary(a) + DropMissingSummary(b)
    decreases |a|
  {
    if a == [] {
      assert a + b == b;
    } else {
      var ab := a + b;
      assert ab[0] == a[0] && ab[1..] == a[1..] + b;
      DropMissingSummaryConcat(a[1..], b);
      if a[0].summary.Some? {
        assert DropMissingSummary(ab) == [a[0]] + DropMissingSummary(a[1..] + b);
        assert DropMissingSummary(a) == [a[0]] + DropMissingSummary(a[1..]);
        Associative([a[0]], DropMissingSummary(a[1..]), DropMissingSummary(b));
      } else {
        assert DropMissingSummary(ab) == DropMissingSummary(a[1..] + b);
        assert DropMissingSummary(a) == DropMissingSummary(a[1..]);
      }
    }
  }

  /** Dropping rows with unchanged prices keeps the order of the rest. */
  lemma {:induction false} DropUnchangedPriceConcat(a: seq<Row>, b: seq<Row>)
    ensures DropUnchangedPrice(a + b) == DropUnchangedPrice(a) + DropUnchangedPrice(b)
    decreases |a|
  {
    if a == [] {
      assert a + b == b;
    } else {
      var ab := a + b;
      assert ab[0] == a[0] && ab[1..] == a[1..] + b;
      DropUnchangedPriceConcat(a[1..], b);
      if a[0].open != a[0].close {
        assert DropUnchangedPrice(ab) == [a[0]] + DropUnchangedPrice(a[1..] + b);
        assert DropUnchangedPrice(a) == [a[0]] + DropUnchangedPrice(a[1..]);
        Associative([a[0]], DropUnchangedPrice(a[1..]), DropUnchangedPrice(b));
      } else {
        assert DropUnchangedPrice(ab) == DropUnchangedPrice(a[1..] + b);
        assert DropUnchangedPrice(a) == DropUnchangedPrice(a[1..]);
      }
    }
  }

  /** `(close.shift(-1) > close).astype(int)`: the last row compares with NaN,
      which is never greater, so it gets 0. */
  function LabelNextClose(s: seq<Row>): seq<Example> {
    seq(|s|, i requires 0 <= i < |s| =>
      Example(s[i], if i + 1 < |s| && s[i + 1].close > s[i].close then 1 else 0))
  }

  /** `y_train`: the labels of the training examples. */
  function LabelsOf(examples: seq<Example>): seq<int> {
    seq(|examples|, i requires 0 <= i < |examples| => examples[i].movement)
  }

  /** `df[:-1]`. */
  function DropLast<T>(s: seq<T>): seq<T> {
    if s == [] then [] else s[..|s| - 1]
  }

  /** The rows that survive both filters, in sorted order. */
  function Filtered(sorted: seq<Row>): seq<Row> {
    DropUnchangedPrice(DropMissingSummary(sorted))
  }

  /** Everything after the sort: filter, label, drop the last row. */
  function Derive(sorted: seq<Row>): seq<Example> {
    DropLast(LabelNextClose(Filtered(sorted)))
  }

  /** The rows left by both filters are, copy for copy, the sorted rows that
      have a summary and whose prices differ, in their sorted order. */
  lemma FilteredCounts(sorted: seq<Row>)
    ensures forall x :: multiset(Filtered(sorted))[x] ==
              if x.summary.Some? && x.open != x.close then multiset(sorted)[x] else 0
  {
    DropMissingSummaryCounts(sorted);
    DropUnchangedPriceCounts(DropMissingSummary(sorted));
  }

  function RowsOf(examples: seq<Example>): (rows: seq<Row>)
    ensures |rows| == |examples|
    ensures forall i :: 0 <= i < |examples| ==> rows[i] == examples[i].row
  {
    seq(|examples|, i requires 0 <= i < |examples| => examples[i].row)
  }

  lemma RowsOfDerive(sorted: seq<Row>)
    ensures RowsOf(Derive(sorted)) == DropLast(Filtered(sorted))
  {
  }

  lemma DropLastRows(f: seq<Row>)
    ensures forall x :: x in DropLast(f) ==> x in f
    ensures DateSorted(f) ==> DateSorted(DropLast(f))
    ensures multiset(DropLast(f)) <= multiset(f)
  {
    if f != [] {
      assert f == f[..|f| - 1] + [f[|f| - 1]];
    }
  }

  /** Every prepared row has a summary and distinct open and close prices,
      the rows are in date order, and they come (with multiplicity) from the
      rows that were sorted. */
  lemma DeriveRows(sorted: seq<Row>)
    requires DateSorted(sorted)
    ensures var d := Derive(sorted);
      && (forall i :: 0 <= i < |d| ==> d[i].row.summary.Some? && d[i].row.open != d[i].row.close)
      && DateSorted(RowsOf(d))
      && multiset(RowsOf(d)) <= multiset(sorted)
  {
    var f := Filtered(sorted);
    var d := Derive(sorted);
    RowsOfDerive(sorted);
    DropLastRows(f);
    forall i | 0 <= i < |d|
      ensures d[i].row.summary.Some? && d[i].row.open != d[i].row.close
    {
      assert RowsOf(d)[i] in DropLast(f);
    }
  }

  /** The labels: row i gets 1 exactly when the next surviving row closes
      strictly higher (equal closes give 0), every label is 0 or 1, and the
      last surviving row is gone. */
  lemma DeriveLabels(sorted: seq<Row>)
    ensures var f, d := Filtered(sorted), Derive(sorted);
      && |d| == (if |f| == 0 then 0 else |f| - 1)
      && forall i :: 0 <= i < |d| ==>
           && d[i].row == f[i]
           && (d[i].movement == 1 <==> f[i + 1].close > f[i].close)
           && (d[i].movement == 0 || d[i].movement == 1)
  {
    LabelsOfRows(Filtered(sorted));
  }

  /** `DeriveLabels` for any rows `f`, whatever filter produced them. */
  lemma LabelsOfRows(f: seq<Row>)
    ensures var d := DropLast(LabelNextClose(f));
      && |d| == (if |f| == 0 then 0 else |f| - 1)
      && forall i :: 0 <= i < |d| ==>
           && d[i].row == f[i]
           && (d[i].movement == 1 <==> f[i + 1].close > f[i].close)
           && (d[i].movement == 0 || d[i].movement == 1)
  {
    var l := LabelNextClose(f);
    var d := DropLast(l);
    assert |l| == |f|;
    if f != [] {
      assert d == l[..|l| - 1];
      forall i | 0 <= i < |d|
        ensures d[i] == l[i]
        ensures l[i] == Example(f[i], if f[i + 1].close > f[i].close then 1 else 0)
      {
      }
    }
  }

  /** Swaps two entries; the array keeps the same rows. */
  method Swap(a: array<Row>, i: int, j: int)
    requires 0 <= i < a.Length && 0 <= j < a.Length
    modifies a
    ensures a[i] == old(a[j]) && a[j] == old(a[i])
    ensures forall k :: 0 <= k < a.Length && k != i && k != j ==> a[k] == old(a[k])
    ensures multiset(a[..]) == multiset(old(a[..]))
  {
    a[i], a[j] := a[j], a[i];
  }

  /** `df.sort_values(by='Date', inplace=True)`, as an insertion sort. */
  method SortByDate(a: array<Row>)
    modifies a
    ensures DateSorted(a[..])
    ensures multiset(a[..]) == multiset(old(a[..]))
  {
    var i := 0;
    while i < a.Length
      invariant 0 <= i <= a.Length
      invariant forall p, q :: 0 <= p < q < i ==> a[p].date <= a[q].date
      invariant multiset(a[..]) == multiset(old(a[..]))
    {
      var j := i;
      while 0 < j && a[j].date < a[j - 1].date
        invariant 0 <= j <= i
        invariant forall p, q :: 0 <= p < q <= i && p != j && q != j ==> a[p].date <= a[q].date
        invariant forall q :: j < q <= i ==> a[j].date <= a[q].date
        invariant multiset(a[..]) == multiset(old(a[..]))
      {
        Swap(a, j - 1, j);
        j := j - 1;
      }
      i := i + 1;
    }
  }

  /** The preparation steps in the scripts' order: first 10,000 rows, sort by
      date in place, drop missing summaries, drop unchanged prices, label,
      drop the last row. */
  method PrepareDataset(table: seq<Row>) returns (examples: seq<Example>)
    ensures exists sorted :: IsDateSortOf(Head(table, RowCap), sorted) && examples == Derive(sorted)
    ensures forall i :: 0 <= i < |examples| ==>
              examples[i].row.summary.Some? && examples[i].row.open != examples[i].row.close
    ensures DateSorted(RowsOf(examples))
    ensures multiset(RowsOf(examples)) <= multiset(Head(table, RowCap))
  {
    var head := Head(table, RowCap);
    var df := new Row[|head|](i requires 0 <= i < |head| => head[i]);
    assert df[..] == head;
    SortByDate(df);
    var rows := DropMissingSummary(df[..]);
    rows := DropUnchangedPrice(rows);
    var labelled := LabelNextClose(rows);
    examples := DropLast(labelled);
    assert examples == Derive(df[..]);
    assert IsDateSortOf(head, df[..]);
    DeriveRows(df[..]);
  }

  /** The held-out share of `train_test_split(test_size=0.2)`: ceil(0.2 * n). */
  function TestCount(n: nat): (k: nat)
    ensures 5 * k >= n && 5 * (k - 1) < n
    ensures k <= n
  {
    (n + 4) / 5
  }

  /** A permutation of the positions 0 .. n-1, the shuffle drawn by the split. */
  predicate IsPermutation(perm: seq<nat>, n: nat) {
    && |perm| == n
    && (forall i :: 0 <= i < n ==> perm[i] < n)
    && (forall i, j :: 0 <= i < j < n ==> perm[i] != perm[j])
    && (forall k :: 0 <= k < n ==> Occurs(perm, k))
  }

  predicate Occurs(perm: seq<nat>, k: nat) {
    exists i :: 0 <= i < |perm| && perm[i] == k
  }

  datatype Split = Split(train: seq<Example>, test: seq<Example>)

  function SplitMessage(n: nat): string {
    "With n_samples=" + NatToString(n) + ", test_size=0.2 and train_size=None, "
    + "the resulting train set will be empty. Adjust any of the aforementioned parameters."
  }

  function Pick<T>(data: seq<T>, perm: seq<nat>, from: nat, to: nat): (r: seq<T>)
    requires from <= to <= |perm|
    requires forall i :: 0 <= i < |perm| ==> perm[i] < |data|
    ensures |r| == to - from
    ensures forall i :: 0 <= i < to - from ==> r[i] == data[perm[from + i]]
  {
    seq(to - from, i requires 0 <= i < to - from => data[perm[from + i]])
  }

  /** `train_test_split(X, y, test_size=0.2)` for the shuffle `perm`: the
      first ceil(0.2 n) shuffled positions are the test set, the rest the
      training set; an empty training set is an error. */
  function TrainTestSplit(data: seq<Example>, perm: seq<nat>): (r: Result<Split, string>)
    requires IsPermutation(perm, |data|)
  {
    var n := |data|;
    var nTest := TestCount(n);
    if n - nTest == 0 then Err(SplitMessage(n))
    else Ok(Split(Pick(data, perm, nTest, n), Pick(data, perm, 0, nTest)))
  }

  /** The split fails exactly when fewer than two rows are prepared; otherwise
      the test set holds ceil(0.2 n) rows and the training set the rest. */
  lemma SplitSizes(data: seq<Example>, perm: seq<nat>)
    requires IsPermutation(perm, |data|)
    ensures TrainTestSplit(data, perm).Err? <==> |data| < 2
    ensures TrainTestSplit(data, perm).Ok? ==>
              && |TrainTestSplit(data, perm).value.test| == (|data| + 4) / 5
              && |TrainTestSplit(data, perm).value.train| == |data| - (|data| + 4) / 5
  {
  }

  /** The positions in the test set and in the training set are disjoint and
      together are every position of the data. */
  lemma SplitPartitionsPositions(n: nat, perm: seq<nat>)
    requires IsPermutation(perm, n)
    ensures var nTest := TestCount(n);
      var testPos := set i | 0 <= i < nTest :: perm[i];
      var trainPos := set i | nTest <= i < n :: perm[i];
      && testPos !! trainPos
      && (forall k :: k in testPos + trainPos <==> 0 <= k < n)
  {
    var nTest := TestCount(n);
    var testPos := set i | 0 <= i < nTest :: perm[i];
    var trainPos := set i | nTest <= i < n :: perm[i];
    forall k | 0 <= k < n
      ensures k in testPos + trainPos
    {
      assert Occurs(perm, k);
      var i :| 0 <= i < n && perm[i] == k;
      if i < nTest {
        assert k in testPos;
      } else {
        assert k in trainPos;
      }
    }
  }

  /** The examples in both sets, with multiplicity, are the prepared examples. */
  lemma SplitKeepsExamples(data: seq<Example>, perm: seq<nat>)
    requires IsPermutation(perm, |data|)
    requires TrainTestSplit(data, perm).Ok?
    ensures var s := TrainTestSplit(data, perm).value;
      multiset(s.train) + multiset(s.test) == multiset(data)
  {
    var n := |data|;
    var nTest := TestCount(n);
    var s := TrainTestSplit(data, perm).value;
    var all := Pick(data, perm, 0, n);
    assert all == s.test + s.train;
    ReindexMultiset(data, perm);
  }

  /** Removing the position that holds the largest index leaves a
      permutation of the positions below it. */
  lemma DropLargest(perm: seq<nat>, n: nat, k: nat)
    requires IsPermutation(perm, n) && 0 <= k < n && perm[k] == n - 1
    ensures IsPermutation(perm[..k] + perm[k + 1..], n - 1)
  {
    var rest := perm[..k] + perm[k + 1..];
    assert forall i :: 0 <= i < n - 1 ==> rest[i] == (if i < k then perm[i] else perm[i + 1]);
    forall m | 0 <= m < n - 1
      ensures Occurs(rest, m)
    {
      assert Occurs(perm, m);
      var p :| 0 <= p < n && perm[p] == m;
      var i := if p < k then p else p - 1;
      assert rest[i] == m;
    }
  }

  lemma PickWithout<T>(data: seq<T>, perm: seq<nat>, k: nat)
    requires IsPermutation(perm, |data|) && 0 <= k < |data| && perm[k] == |data| - 1
    requires IsPermutation(perm[..k] + perm[k + 1..], |data| - 1)
    ensures var all := Pick(data, perm, 0, |data|);
      Pick(data[..|data| - 1], perm[..k] + perm[k + 1..], 0, |data| - 1) == all[..k] + all[k + 1..]
      && all[k] == data[|data| - 1]
  {
  }

  lemma MultisetWithout<T>(s: seq<T>, k: nat)
    requires k < |s|
    ensures multiset(s) == multiset(s[..k] + s[k + 1..]) + multiset{s[k]}
  {
    assert s == s[..k] + [s[k]] + s[k + 1..];
  }

  /** Reading through `perm` is reading the shorter sequence through a
      permutation of its own positions, plus the last element. */
  lemma PickMultisetStep<T>(data: seq<T>, perm: seq<nat>) returns (rest: seq<nat>)
    requires IsPermutation(perm, |data|) && data != []
    ensures IsPermutation(rest, |data| - 1)
    ensures multiset(Pick(data, perm, 0, |data|))
         == multiset(Pick(data[..|data| - 1], rest, 0, |data| - 1)) + multiset{data[|data| - 1]}
  {
    var n := |data|;
    assert Occurs(perm, n - 1);
    var k :| 0 <= k < n && perm[k] == n - 1;
    DropLargest(perm, n, k);
    rest := perm[..k] + perm[k + 1..];
    PickWithout(data, perm, k);
    MultisetWithout(Pick(data, perm, 0, n), k);
  }

  lemma MultisetLast<T>(data: seq<T>)
    requires data != []
    ensures multiset(data) == multiset(data[..|data| - 1]) + multiset{data[|data| - 1]}
  {
    assert data == data[..|data| - 1] + [data[|data| - 1]];
  }

  /** Reading a sequence through a permutation of its positions keeps its
      elements with their multiplicities. */
  lemma {:induction false} ReindexMultiset<T>(data: seq<T>, perm: seq<nat>)
    requires IsPermutation(perm, |data|)
    ensures multiset(Pick(data, perm, 0, |data|)) == multiset(data)
    decreases |data|
  {
    var n := |data|;
    if n > 0 {
      var rest := PickMultisetStep(data, perm);
      ReindexMultiset(data[..n - 1], rest);
      MultisetLast(data);
    }
  }
}
