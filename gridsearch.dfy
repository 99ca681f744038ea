/** Exhaustive hyperparameter search as `GridSearchCV` runs it: the candidate
    settings are the Cartesian product of the listed values, taken with the
    parameter names in sorted order (`ParameterGrid`), and the chosen setting
    is the first one with the highest mean cross-validation score. Fitting and
    scoring are outside the model: each candidate's score is an input. */
module GridSearch {
  import opened Util

  /** A hyperparameter value as written in the grids. */
  datatype Value = IntV(i: int) | FloatV(r: real) | StrV(s: string) | NoneV

  /** A grid as the dict literal writes it: parameter names with their lists. */
  type Grid = seq<(string, seq<Value>)>

  /** One candidate setting: each parameter name with one value. */
  type Config = seq<(string, Value)>

  /** The mean score of a candidate over the folds: a number, or NaN because
      some fit failed (`allFolds` when every fold failed). */
  datatype Score = Mean(value: int) | Failed(allFolds: bool)

  datatype SearchError =
    | EmptyValues(name: string)              // a parameter was given no values
    | TooFewSamples(samples: nat)            // fewer training rows than folds
    | ClassesTooSmall                        // no class has a member for every fold
    | NoViableConfiguration(fits: nat)       // every fit of every candidate failed

  /** A dict has each key once. */
  predicate DistinctNames(g: Grid) {
    forall i, j :: 0 <= i < j < |g| ==> g[i].0 != g[j].0
  }

  predicate SortedNames(g: Grid) {
    forall i, j :: 0 <= i < j < |g| ==> LexLess(g[i].0, g[j].0)
  }

  /** The number of candidates: the product of the list lengths. */
  function GridSize(g: Grid): nat {
    if g == [] then 1 else |g[0].1| * GridSize(g[1..])
  }

  /** Every name in `g` comes after `x`. */
  predicate Above(x: string, g: Grid) {
    forall j :: 0 <= j < |g| ==> LexLess(x, g[j].0)
  }

  function Insert(e: (string, seq<Value>), g: Grid): (r: Grid)
    ensures multiset(r) == multiset(g) + multiset{e}
    ensures |r| == |g| + 1
  {
    if g == [] then [e]
    else if LexLess(e.0, g[0].0) then [e] + g
    else
      assert g == [g[0]] + g[1..];
      [g[0]] + Insert(e, g[1..])
  }

  lemma SortedCons(x: (string, seq<Value>), g: Grid)
    requires Above(x.0, g) && SortedNames(g)
    ensures SortedNames([x] + g)
  {
    var r := [x] + g;
    forall i, j | 0 <= i < j < |r| ensures LexLess(r[i].0, r[j].0) {
      if i > 0 {
        assert r[i] == g[i - 1];
      }
      assert r[j] == g[j - 1];
    }
  }

  /** A lower bound of `g` that is below `e` stays one after inserting `e`. */
  lemma {:induction false} InsertAbove(e: (string, seq<Value>), g: Grid, x: string)
    requires Above(x, g) && LexLess(x, e.0)
    ensures Above(x, Insert(e, g))
    decreases |g|
  {
    if g != [] && !LexLess(e.0, g[0].0) {
      InsertAbove(e, g[1..], x);
      var r := Insert(e, g);
      assert r == [g[0]] + Insert(e, g[1..]);
      forall j | 0 <= j < |r| ensures LexLess(x, r[j].0) {
        if j > 0 {
          assert r[j] == Insert(e, g[1..])[j - 1];
        }
      }
    }
  }

  /** Inserting a new name into names in order keeps them in order. */
  lemma {:induction false} InsertSorted(e: (string, seq<Value>), g: Grid)
    requires SortedNames(g)
    requires forall i :: 0 <= i < |g| ==> g[i].0 != e.0
    ensures SortedNames(Insert(e, g))
    decreases |g|
  {
    if g == [] {
    } else if LexLess(e.0, g[0].0) {
      forall j | 0 <= j < |g| ensures LexLess(e.0, g[j].0) {
        if j > 0 {
          LexLessTransitive(e.0, g[0].0, g[j].0);
        }
      }
      SortedCons(e, g);
    } else {
      var tail := g[1..];
      assert forall i, j :: 0 <= i < j < |tail| ==> tail[i] == g[i + 1] && tail[j] == g[j + 1];
      InsertSorted(e, tail);
      LexLessTotal(e.0, g[0].0);
      assert forall j :: 0 <= j < |tail| ==> tail[j] == g[j + 1];
      InsertAbove(e, tail, g[0].0);
      SortedCons(g[0], Insert(e, tail));
    }
  }

  /** `sorted(grid.items())`: the entries ordered by name. */
  function SortByName(g: Grid): (r: Grid)
    ensures multiset(r) == multiset(g)
    ensures DistinctNames(g) ==> SortedNames(r)
  {
    if g == [] then []
    else
      var rest := SortByName(g[1..]);
      assert g == [g[0]] + g[1..];
      assert DistinctNames(g) ==> forall i :: 0 <= i < |rest| ==> rest[i].0 != g[0].0 by {
        if DistinctNames(g) {
          forall i | 0 <= i < |rest| ensures rest[i].0 != g[0].0 {
            assert rest[i] in multiset(g[1..]);
            var k :| 0 <= k < |g[1..]| && g[1..][k] == rest[i];
            assert g[k + 1] == rest[i];
          }
        }
      }
      assert DistinctNames(g) ==> SortedNames(Insert(g[0], rest)) by {
        if DistinctNames(g) {
          InsertSorted(g[0], rest);
        }
      }
      Insert(g[0], rest)
  }

  /** `[(name, v)] + c` for every value `v` (outer) and candidate `c` (inner). */
  function Prefixed(name: string, values: seq<Value>, rests: seq<Config>): (r: seq<Config>)
    ensures |r| == |values| * |rests|
  {
    if values == [] then []
    else
      seq(|rests|, j requires 0 <= j < |rests| => [(name, values[0])] + rests[j])
      + Prefixed(name, values[1..], rests)
  }

  /** `itertools.product` over the lists: the first parameter varies slowest. */
  function Product(g: Grid): seq<Config> {
    if g == [] then [[]] else Prefixed(g[0].0, g[0].1, Product(g[1..]))
  }

  /** The candidates `GridSearchCV` evaluates, in its order. */
  function Candidates(g: Grid): seq<Config> {
    Product(SortByName(g))
  }

  /** `c` gives each entry of `g`, in order, one of its listed values. */
  predicate Assigns(c: Config, g: Grid) {
    |c| == |g| && forall i :: 0 <= i < |g| ==> c[i].0 == g[i].0 && c[i].1 in g[i].1
  }

  lemma {:induction false} PrefixedMembers(name: string, values: seq<Value>, rests: seq<Config>, c: Config)
    ensures c in Prefixed(name, values, rests) <==>
              |c| > 0 && c[0].0 == name && c[0].1 in values && c[1..] in rests
    decreases |values|
  {
    if values != [] {
      PrefixedMembers(name, values[1..], rests, c);
      var head := seq(|rests|, j requires 0 <= j < |rests| => [(name, values[0])] + rests[j]);
      if c in head {
        var j :| 0 <= j < |rests| && head[j] == c;
        assert c[1..] == rests[j];
      }
      if |c| > 0 && c[0] == (name, values[0]) && c[1..] in rests {
        var j :| 0 <= j < |rests| && rests[j] == c[1..];
        assert c == head[j];
      }
      assert values == [values[0]] + values[1..];
    }
  }

  /** The product holds exactly the settings that give each parameter one of
      its values. */
  lemma {:induction false} ProductMembers(g: Grid, c: Config)
    ensures c in Product(g) <==> Assigns(c, g)
    decreases |g|
  {
    if g == [] {
    } else {
      PrefixedMembers(g[0].0, g[0].1, Product(g[1..]), c);
      if |c| > 0 {
        ProductMembers(g[1..], c[1..]);
        if Assigns(c[1..], g[1..]) && c[0].0 == g[0].0 && c[0].1 in g[0].1 {
          assert Assigns(c, g) by {
            forall i | 0 < i < |g| ensures c[i].0 == g[i].0 && c[i].1 in g[i].1 {
              assert c[1..][i - 1] == c[i];
            }
          }
        }
        if Assigns(c, g) {
          assert Assigns(c[1..], g[1..]) by {
            forall i | 0 <= i < |g| - 1 ensures c[1..][i].0 == g[1..][i].0 && c[1..][i].1 in g[1..][i].1 {
              assert c[i + 1].0 == g[i + 1].0;
            }
          }
        }
      }
    }
  }

  lemma {:induction false} ProductSize(g: Grid)
    ensures |Product(g)| == GridSize(g)
    decreases |g|
  {
    if g != [] {
      ProductSize(g[1..]);
    }
  }

  lemma {:induction false} InsertSize(e: (string, seq<Value>), g: Grid)
    ensures GridSize(Insert(e, g)) == |e.1| * GridSize(g)
    decreases |g|
  {
    if g != [] && !LexLess(e.0, g[0].0) {
      InsertSize(e, g[1..]);
      var r := Insert(e, g[1..]);
      assert Insert(e, g) == [g[0]] + r;
      assert ([g[0]] + r)[1..] == r;
      var a, b, c := |g[0].1|, |e.1|, GridSize(g[1..]);
      assert GridSize(Insert(e, g)) == a * (b * c);
      assert GridSize(g) == a * c;
      MulSwap(a, b, c);
    } else if g != [] {
      assert ([e] + g)[1..] == g;
    }
  }

  lemma MulSwap(a: nat, b: nat, c: nat)
    ensures a * (b * c) == b * (a * c)
  {
  }

  lemma {:induction false} SortSize(g: Grid)
    ensures GridSize(SortByName(g)) == GridSize(g)
    decreases |g|
  {
    if g != [] {
      SortSize(g[1..]);
      InsertSize(g[0], SortByName(g[1..]));
    }
  }

  /** There are as many candidates as the product of the list lengths. */
  lemma CandidateCount(g: Grid)
    ensures |Candidates(g)| == GridSize(g)
  {
    ProductSize(SortByName(g));
    SortSize(g);
  }

  /** One factor of the candidate count: the grid from entry `k` on. */
  lemma GridSizeFrom(g: Grid, k: nat)
    requires k < |g|
    ensures GridSize(g[k..]) == |g[k].1| * GridSize(g[k + 1..])
  {
    assert g[k..][1..] == g[k + 1..];
  }

  /** A grid of three parameters with `a`, `b` and `c` values has `a * b * c`
      candidates. */
  lemma CountOfThree(g: Grid, a: nat, b: nat, c: nat)
    requires |g| == 3 && |g[0].1| == a && |g[1].1| == b && |g[2].1| == c
    ensures |Candidates(g)| == a * (b * c)
  {
    CandidateCount(g);
    GridSizeFrom(g, 2);
    GridSizeFrom(g, 1);
    GridSizeFrom(g, 0);
    assert g[3..] == [] && g[0..] == g;
  }

  /** A grid of four parameters with `a`, `b`, `c` and `d` values has
      `a * b * c * d` candidates. */
  lemma CountOfFour(g: Grid, a: nat, b: nat, c: nat, d: nat)
    requires |g| == 4 && |g[0].1| == a && |g[1].1| == b && |g[2].1| == c && |g[3].1| == d
    ensures |Candidates(g)| == a * (b * (c * d))
  {
    CandidateCount(g);
    GridSizeFrom(g, 3);
    GridSizeFrom(g, 2);
    GridSizeFrom(g, 1);
    GridSizeFrom(g, 0);
    assert g[4..] == [] && g[0..] == g;
  }

  /** Every candidate sets every parameter of the grid to one of its listed
      values, and every such choice is a candidate. */
  lemma CandidatesCover(g: Grid, c: Config)
    ensures c in Candidates(g) <==> Assigns(c, SortByName(g))
  {
    ProductMembers(SortByName(g), c);
  }

  /** A candidate sets each parameter of the grid. */
  lemma CandidateSetsEveryName(g: Grid, c: Config, name: string, values: seq<Value>)
    requires c in Candidates(g) && (name, values) in g
    ensures exists v :: v in values && (name, v) in c
  {
    CandidatesCover(g, c);
    var s := SortByName(g);
    assert (name, values) in multiset(s);
    var i :| 0 <= i < |s| && s[i] == (name, values);
    assert (name, c[i].1) in c;
  }

  predicate HasMean(scores: seq<Score>) {
    exists i :: 0 <= i < |scores| && scores[i].Mean?
  }

  /** `best_index_`: ranks put NaN scores below every number and the first of
      the top-ranked candidates wins; `BestIndexIsBest` states what it picks. */
  function BestIndex(scores: seq<Score>): (k: nat)
    requires |scores| > 0
    ensures k < |scores|
    decreases |scores|
  {
    if |scores| == 1 then 0
    else
      var init := scores[..|scores| - 1];
      var b := BestIndex(init);
      var last := |scores| - 1;
      if scores[last].Failed? then b
      else if !init[b].Mean? || init[b].value < scores[last].value then last
      else b
  }

  /** When some score is a number, the winner's score is a number at least
      every other number and beats every number before it; with no number at
      all every candidate ties and the first wins. */
  lemma {:induction false} BestIndexIsBest(scores: seq<Score>)
    requires |scores| > 0
    ensures var k := BestIndex(scores);
      && (HasMean(scores) ==>
            && scores[k].Mean?
            && (forall j :: 0 <= j < |scores| && scores[j].Mean? ==> scores[j].value <= scores[k].value)
            && (forall j :: 0 <= j < k && scores[j].Mean? ==> scores[j].value < scores[k].value))
      && (!HasMean(scores) ==> k == 0)
    decreases |scores|
  {
    if |scores| > 1 {
      var init := scores[..|scores| - 1];
      BestIndexIsBest(init);
      var b := BestIndex(init);
      var last := |scores| - 1;
      assert forall j :: 0 <= j < last ==> init[j] == scores[j];
      if scores[last].Failed? {
        assert HasMean(scores) ==> HasMean(init);
      } else if !init[b].Mean? || init[b].value < scores[last].value {
        assert !init[b].Mean? ==> !HasMean(init);
      }
    }
  }

  predicate AllFitsFailed(scores: seq<Score>) {
    forall i :: 0 <= i < |scores| ==> scores[i] == Failed(true)
  }

  function EmptyList(g: Grid): Option<string> {
    if g == [] then None
    else if g[0].1 == [] then Some(g[0].0)
    else EmptyList(g[1..])
  }

  /** `cv=3` on a classifier: a 3-fold `StratifiedKFold`. */
  const Folds: nat := 3

  /** The error `StratifiedKFold(3).split` raises before any fit: fewer
      training rows than folds, or no class with as many members as folds. */
  function SplitError(labels: seq<int>): Option<SearchError> {
    if |labels| < Folds then Some(TooFewSamples(|labels|))
    else if forall i :: 0 <= i < |labels| ==> multiset(labels)[labels[i]] < Folds then Some(ClassesTooSmall)
    else None
  }

  /** With labels 0 and 1 the rows split into the two classes. */
  lemma {:induction false} BinaryCounts(labels: seq<int>)
    requires forall i :: 0 <= i < |labels| ==> labels[i] == 0 || labels[i] == 1
    ensures multiset(labels)[0] + multiset(labels)[1] == |labels|
    decreases |labels|
  {
    if labels != [] {
      var init := labels[..|labels| - 1];
      BinaryCounts(init);
      assert labels == init + [labels[|labels| - 1]];
      assert multiset(labels) == multiset(init) + multiset{labels[|labels| - 1]};
    }
  }

  /** For 0/1 labels the split fails on fewer than three rows and always
      succeeds from five rows on, where one class must have three members. */
  lemma BinarySplit(labels: seq<int>)
    requires forall i :: 0 <= i < |labels| ==> labels[i] == 0 || labels[i] == 1
    ensures |labels| < Folds ==> SplitError(labels) == Some(TooFewSamples(|labels|))
    ensures |labels| >= 5 ==> SplitError(labels).None?
  {
    if |labels| >= 5 {
      BinaryCounts(labels);
      var c := if multiset(labels)[0] >= 3 then 0 else 1;
      assert multiset(labels)[c] >= 3;
      assert c in multiset(labels);
      var i :| 0 <= i < |labels| && labels[i] == c;
      assert multiset(labels)[labels[i]] >= Folds;
    }
  }

  /** `GridSearchCV(..., cv=3).fit(...)` on training rows with `labels`,
      reduced to what it chooses: `best_params_`, given each candidate's
      score. The grid is checked first, then the split, then the fits. */
  function Search(g: Grid, labels: seq<int>, score: Config -> Score): (r: Result<Config, SearchError>)
    ensures r.Ok? ==> r.value in Candidates(g)
  {
    match EmptyList(g)
    case Some(name) => Err(EmptyValues(name))
    case None =>
      if SplitError(labels).Some? then Err(SplitError(labels).value)
      else
        var cands := Candidates(g);
        CandidateCount(g);
        NoEmptyListSize(g);
        var scores := seq(|cands|, i requires 0 <= i < |cands| => score(cands[i]));
        if AllFitsFailed(scores) then Err(NoViableConfiguration(Folds * |cands|))
        else Ok(cands[BestIndex(scores)])
  }

  lemma {:induction false} NoEmptyListSize(g: Grid)
    requires EmptyList(g).None?
    ensures GridSize(g) > 0
    decreases |g|
  {
    if g != [] {
      NoEmptyListSize(g[1..]);
    }
  }

  /** When some candidate has a score, the chosen setting is a candidate
      whose score is a number at least as high as every other candidate's
      (ties go to the first in grid order, as `SearchTieBreak` states). */
  lemma SearchPicksFirstBest(g: Grid, labels: seq<int>, score: Config -> Score)
    requires Search(g, labels, score).Ok?
    requires exists c :: c in Candidates(g) && score(c).Mean?
    ensures var best := Search(g, labels, score).value;
      && best in Candidates(g)
      && score(best).Mean?
      && (forall c :: c in Candidates(g) && score(c).Mean? ==> score(c).value <= score(best).value)
  {
    assert EmptyList(g).None? && SplitError(labels).None?;
    var cands := Candidates(g);
    var scores := seq(|cands|, i requires 0 <= i < |cands| => score(cands[i]));
    var c :| c in cands && score(c).Mean?;
    var i :| 0 <= i < |cands| && cands[i] == c;
    assert scores[i].Mean?;
    var k := BestIndex(scores);
    BestIndexIsBest(scores);
    forall c' | c' in cands && score(c').Mean?
      ensures score(c').value <= score(cands[k]).value
    {
      var j :| 0 <= j < |cands| && cands[j] == c';
      assert scores[j] == score(c');
    }
  }

  /** The search raises exactly when some parameter has no values, the rows
      cannot be split into three stratified folds, or every fit of every
      candidate failed; the first of these is the error reported. */
  lemma SearchFails(g: Grid, labels: seq<int>, score: Config -> Score)
    ensures Search(g, labels, score).Err? <==>
              || EmptyList(g).Some?
              || SplitError(labels).Some?
              || forall c :: c in Candidates(g) ==> score(c) == Failed(true)
    ensures EmptyList(g).Some? ==> Search(g, labels, score) == Err(EmptyValues(EmptyList(g).value))
    ensures EmptyList(g).None? && SplitError(labels).Some? ==> Search(g, labels, score) == Err(SplitError(labels).value)
    ensures EmptyList(g).None? && SplitError(labels).None? && Search(g, labels, score).Err? ==>
              Search(g, labels, score) == Err(NoViableConfiguration(Folds * |Candidates(g)|))
  {
    if EmptyList(g).None? && SplitError(labels).None? {
      var cands := Candidates(g);
      var scores := seq(|cands|, i requires 0 <= i < |cands| => score(cands[i]));
      if AllFitsFailed(scores) {
        forall c | c in cands
          ensures score(c) == Failed(true)
        {
          var i :| 0 <= i < |cands| && cands[i] == c;
          assert scores[i] == score(c);
        }
      } else {
        var i :| 0 <= i < |scores| && scores[i] != Failed(true);
        assert cands[i] in cands && score(cands[i]) != Failed(true);
      }
    }
  }

  /** Ties go to the first candidate in grid order: the chosen setting sits
      at a position `k` where every earlier candidate with a score scores
      strictly less; with no score at all it is the first candidate. */
  lemma SearchTieBreak(g: Grid, labels: seq<int>, score: Config -> Score) returns (k: nat)
    requires Search(g, labels, score).Ok?
    ensures k < |Candidates(g)| && Candidates(g)[k] == Search(g, labels, score).value
    ensures (exists c :: c in Candidates(g) && score(c).Mean?) ==>
              && score(Search(g, labels, score).value).Mean?
              && forall j :: 0 <= j < k && score(Candidates(g)[j]).Mean? ==>
                   score(Candidates(g)[j]).value < score(Search(g, labels, score).value).value
    ensures (forall c :: c in Candidates(g) ==> !score(c).Mean?) ==> k == 0
  {
    assert EmptyList(g).None? && SplitError(labels).None?;
    var cands := Candidates(g);
    var scores := seq(|cands|, i requires 0 <= i < |cands| => score(cands[i]));
    k := BestIndex(scores);
    BestIndexIsBest(scores);
    if exists c :: c in cands && score(c).Mean? {
      var c :| c in cands && score(c).Mean?;
      var i :| 0 <= i < |cands| && cands[i] == c;
      assert scores[i].Mean?;
      forall j | 0 <= j < k && score(cands[j]).Mean?
        ensures score(cands[j]).value < score(cands[k]).value
      {
        assert scores[j] == score(cands[j]);
      }
    } else {
      assert !HasMean(scores) by {
        forall i | 0 <= i < |scores| ensures !scores[i].Mean? {
          assert cands[i] in cands;
        }
      }
    }
  }

  /** A grid whose every parameter has a single value has one candidate, and
      the search returns exactly it unless the split or every fit fails. */
  lemma SingleValueGrid(g: Grid, labels: seq<int>, score: Config -> Score)
    requires forall i :: 0 <= i < |g| ==> |g[i].1| == 1
    ensures |Candidates(g)| == 1
    ensures Search(g, labels, score).Ok? <==> SplitError(labels).None? && score(Candidates(g)[0]) != Failed(true)
    ensures Search(g, labels, score).Ok? ==> Search(g, labels, score).value == Candidates(g)[0]
  {
    CandidateCount(g);
    SingleGridSize(g);
    NoEmptySingle(g);
    var cands := Candidates(g);
    var scores := seq(|cands|, i requires 0 <= i < |cands| => score(cands[i]));
    assert AllFitsFailed(scores) <==> scores[0] == Failed(true);
    assert BestIndex(scores) == 0;
  }

  lemma {:induction false} SingleGridSize(g: Grid)
    requires forall i :: 0 <= i < |g| ==> |g[i].1| == 1
    ensures GridSize(g) == 1
    decreases |g|
  {
    if g != [] {
      SingleGridSize(g[1..]);
    }
  }

  lemma {:induction false} NoEmptySingle(g: Grid)
    requires forall i :: 0 <= i < |g| ==> |g[i].1| == 1
    ensures EmptyList(g).None?
    decreases |g|
  {
    if g != [] {
      NoEmptySingle(g[1..]);
    }
  }
}
