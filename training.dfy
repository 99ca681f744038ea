/** What each call of `model_evaluation` does, the same in both training
    scripts: a pipeline of the shared text transform and a fresh estimator
    is grid-searched, the best setting refit on the training rows is scored
    on the test rows, and the fitted pipeline is saved under a name carrying
    its accuracy. Cross-validation scores and test accuracies are inputs. */
module Training {
  import opened Util
  import opened GridSearch
  import opened Dataset
  import opened Artifacts

  /** An accuracy rounded to hundredths. */
  type Hundredths = h: nat | h <= 100

  /** The estimator class `model_evaluation` is given, its grid and the
      display name it is saved under. */
  datatype Family = Family(estimator: string, grid: Grid, name: string)

  /** The mean cross-validation score of an estimator with a setting. */
  type Scorer = (string, Config) -> Score

  /** The test accuracy of an estimator refit with a setting on the training
      rows, or None when the refit (or the prediction) raises. */
  type Tester = (string, Config) -> Option<Hundredths>

  /** The file `save_model` writes for a display name and an accuracy. */
  type Namer = (string, Hundredths) -> string

  /** Why a `model_evaluation` call raises: in the search, or in the refit of
      the chosen setting. */
  datatype EvalError = SearchRaised(error: SearchError) | RefitRaised

  /** Why a run stops: `train_test_split` raised, fitting the text transform
      raised, or a `model_evaluation` call raised. */
  datatype Failure =
    | TooFewExamples(message: string)
    | TransformFitFailed
    | EvaluationFailed(family: string, error: EvalError)

  function ScoresOf(score: Scorer, estimator: string): Config -> Score {
    c => score(estimator, c)
  }

  /** `model_evaluation` up to the save: the refit best pipeline and its
      accuracy, or the error the search or the refit raised. */
  function Evaluation(transform: Artifact, fam: Family, train: seq<Example>, score: Scorer, test: Tester)
    : (r: Result<(Artifact, Hundredths), EvalError>)
    ensures var s := Search(fam.grid, LabelsOf(train), ScoresOf(score, fam.estimator));
      && (r.Err? <==> s.Err? || test(fam.estimator, s.value).None?)
      && (s.Err? ==> r == Err(SearchRaised(s.error)))
      && (s.Ok? && test(fam.estimator, s.value).None? ==> r == Err(RefitRaised))
    ensures r.Ok? ==>
      && r.value.0.PipelineArtifact?
      && r.value.0 == PipelineArtifact(transform, fam.estimator, r.value.0.params, train)
      && r.value.0.params == Search(fam.grid, LabelsOf(train), ScoresOf(score, fam.estimator)).value
      && Some(r.value.1) == test(fam.estimator, r.value.0.params)
  {
    match Search(fam.grid, LabelsOf(train), ScoresOf(score, fam.estimator))
    case Err(e) => Err(SearchRaised(e))
    case Ok(best) =>
      match test(fam.estimator, best)
      case None => Err(RefitRaised)
      case Some(h) => Ok((PipelineArtifact(transform, fam.estimator, best, train), h))
  }

  /** The saved pipeline's setting is one of its grid's candidates, scoring
      at least as well as every other candidate that has a score. */
  lemma EvaluationPicksBest(transform: Artifact, fam: Family, train: seq<Example>, score: Scorer, test: Tester)
    requires Evaluation(transform, fam, train, score, test).Ok?
    requires exists c :: c in Candidates(fam.grid) && score(fam.estimator, c).Mean?
    ensures var best := Evaluation(transform, fam, train, score, test).value.0.params;
      && best in Candidates(fam.grid)
      && score(fam.estimator, best).Mean?
      && forall c :: c in Candidates(fam.grid) && score(fam.estimator, c).Mean? ==>
           score(fam.estimator, c).value <= score(fam.estimator, best).value
  {
    var f := ScoresOf(score, fam.estimator);
    var c :| c in Candidates(fam.grid) && score(fam.estimator, c).Mean?;
    assert f(c).Mean?;
    SearchPicksFirstBest(fam.grid, LabelsOf(train), f);
    var best := Search(fam.grid, LabelsOf(train), f).value;
    assert forall c :: f(c) == score(fam.estimator, c);
  }

  /** The files after evaluating the families in order, saving each one's
      pipeline, up to the first evaluation that raises (its family's name
      and error are the second component). */
  function SaveAll(files: map<string, Artifact>, transform: Artifact, fams: seq<Family>, train: seq<Example>,
                   score: Scorer, test: Tester, name: Namer)
    : (map<string, Artifact>, Option<(string, EvalError)>)
    decreases |fams|
  {
    if fams == [] then (files, None)
    else
      match Evaluation(transform, fams[0], train, score, test)
      case Err(e) => (files, Some((fams[0].name, e)))
      case Ok(r) => SaveAll(files[name(fams[0].name, r.1) := r.0], transform, fams[1..], train, score, test, name)
  }

  /** Evaluating the family at position `k` and then the ones after it. */
  lemma SaveAllStep(files: map<string, Artifact>, transform: Artifact, fams: seq<Family>, k: nat,
                    train: seq<Example>, score: Scorer, test: Tester, name: Namer)
    requires k < |fams|
    ensures var e := Evaluation(transform, fams[k], train, score, test);
      SaveAll(files, transform, fams[k..], train, score, test, name) ==
        if e.Err? then (files, Some((fams[k].name, e.error)))
        else SaveAll(files[name(fams[k].name, e.value.1) := e.value.0], transform, fams[k + 1..],
                     train, score, test, name)
  {
    assert fams[k..][0] == fams[k] && fams[k..][1..] == fams[k + 1..];
  }

  /** Fewer than three training rows cannot be split into three folds: the
      first family's search raises before any fit and no model file is
      written. */
  lemma TinyTrainingSetSavesNothing(files: map<string, Artifact>, transform: Artifact, fams: seq<Family>,
                                    train: seq<Example>, score: Scorer, test: Tester, name: Namer)
    requires |train| < Folds && fams != [] && EmptyList(fams[0].grid).None?
    ensures SaveAll(files, transform, fams, train, score, test, name) ==
              (files, Some((fams[0].name, SearchRaised(TooFewSamples(|train|)))))
  {
    assert SplitError(LabelsOf(train)) == Some(TooFewSamples(|train|));
  }

  /** The run gets through every family exactly when no evaluation raises,
      and otherwise reports the first one that did. */
  lemma {:induction false} SaveAllFailure(files: map<string, Artifact>, transform: Artifact, fams: seq<Family>,
                                          train: seq<Example>, score: Scorer, test: Tester, name: Namer)
    returns (k: nat)
    ensures var f := SaveAll(files, transform, fams, train, score, test, name).1;
      && (f.None? <==> forall j :: 0 <= j < |fams| ==> Evaluation(transform, fams[j], train, score, test).Ok?)
      && (f.Some? ==>
            && k < |fams|
            && Evaluation(transform, fams[k], train, score, test).Err?
            && f.value == (fams[k].name, Evaluation(transform, fams[k], train, score, test).error)
            && forall j :: 0 <= j < k ==> Evaluation(transform, fams[j], train, score, test).Ok?)
    decreases |fams|
  {
    k := 0;
    if fams != [] {
      var e := Evaluation(transform, fams[0], train, score, test);
      var rest := fams[1..];
      if e.Ok? {
        var files' := files[name(fams[0].name, e.value.1) := e.value.0];
        assert SaveAll(files, transform, fams, train, score, test, name)
            == SaveAll(files', transform, rest, train, score, test, name);
        var k' := SaveAllFailure(files', transform, rest, train, score, test, name);
        k := k' + 1;
        forall j | 1 <= j < |fams|
          ensures fams[j] == rest[j - 1]
        {
        }
      } else {
        assert SaveAll(files, transform, fams, train, score, test, name).1 == Some((fams[0].name, e.error));
      }
    }
  }

  /** A file no model name can hit keeps its contents, or stays absent. */
  lemma {:induction false} SaveAllKeeps(files: map<string, Artifact>, transform: Artifact, fams: seq<Family>,
                                        train: seq<Example>, score: Scorer, test: Tester, name: Namer, path: string)
    requires forall n: string, h: Hundredths :: name(n, h) != path
    ensures var out := SaveAll(files, transform, fams, train, score, test, name).0;
      && (path in files <==> path in out)
      && (path in files ==> out[path] == files[path])
    decreases |fams|
  {
    if fams != [] {
      var e := Evaluation(transform, fams[0], train, score, test);
      if e.Ok? {
        SaveAllKeeps(files[name(fams[0].name, e.value.1) := e.value.0], transform, fams[1..],
                     train, score, test, name, path);
      }
    }
  }

  /** Every file the run writes holds a pipeline built around the shared
      transform and fitted on the training rows; every other file is as it
      was. */
  lemma {:induction false} SaveAllWritesPipelines(files: map<string, Artifact>, transform: Artifact, fams: seq<Family>,
                                                  train: seq<Example>, score: Scorer, test: Tester, name: Namer)
    ensures var out := SaveAll(files, transform, fams, train, score, test, name).0;
      && files.Keys <= out.Keys
      && forall p :: p in out ==>
           (p in files && out[p] == files[p])
           || (out[p].PipelineArtifact? && out[p].first == transform && out[p].trainedOn == train)
    decreases |fams|
  {
    if fams != [] {
      var e := Evaluation(transform, fams[0], train, score, test);
      if e.Ok? {
        SaveAllWritesPipelines(files[name(fams[0].name, e.value.1) := e.value.0], transform, fams[1..],
                               train, score, test, name);
      }
    }
  }

  /** One script run after data preparation: split, get the transform from
      the cache file `cachePath` (or build it from the training rows and
      write it; None when building raises), then evaluate and save the
      families in order. */
  function Run(files: map<string, Artifact>, examples: seq<Example>, perm: seq<nat>, cachePath: string,
               build: seq<Example> -> Option<Artifact>, fams: seq<Family>, score: Scorer, test: Tester, name: Namer)
    : (map<string, Artifact>, Option<Failure>)
    requires IsPermutation(perm, |examples|)
  {
    match TrainTestSplit(examples, perm)
    case Err(m) => (files, Some(TooFewExamples(m)))
    case Ok(split) =>
      var (loaded, transform) := Cached(files, cachePath, build(split.train));
      if transform.None? then (files, Some(TransformFitFailed))
      else
        var (out, failed) := SaveAll(loaded, transform.value, fams, split.train, score, test, name);
        (out, if failed.None? then None else Some(EvaluationFailed(failed.value.0, failed.value.1)))
  }

  /** With fewer than two prepared rows the split raises before anything is
      written, and a transform that cannot be built when the cache file is
      absent also stops the run with nothing written. Otherwise the cache
      file ends up holding the run's transform (unchanged when it existed),
      and every model file written holds a pipeline around that same
      transform fitted on the training rows. */
  lemma RunEffects(files: map<string, Artifact>, examples: seq<Example>, perm: seq<nat>, cachePath: string,
                   build: seq<Example> -> Option<Artifact>, fams: seq<Family>, score: Scorer, test: Tester,
                   name: Namer)
    requires IsPermutation(perm, |examples|)
    requires forall n: string, h: Hundredths :: name(n, h) != cachePath
    ensures |examples| < 2 ==> Run(files, examples, perm, cachePath, build, fams, score, test, name).0 == files
    ensures |examples| >= 2 ==>
      var split := TrainTestSplit(examples, perm).value;
      var transform := Cached(files, cachePath, build(split.train)).1;
      var (out, failure) := Run(files, examples, perm, cachePath, build, fams, score, test, name);
      && (transform.None? <==> cachePath !in files && build(split.train).None?)
      && (transform.None? ==> out == files && failure == Some(TransformFitFailed))
      && (transform.Some? ==>
            && cachePath in out && out[cachePath] == transform.value
            && (cachePath in files ==> out[cachePath] == files[cachePath])
            && forall p :: p in out && p != cachePath ==>
                 (p in files && out[p] == files[p])
                 || (out[p].PipelineArtifact? && out[p].first == transform.value
                     && out[p].trainedOn == split.train))
  {
    if |examples| < 2 {
      assert TrainTestSplit(examples, perm).Err?;
    } else {
      SplitSizes(examples, perm);
      var split := TrainTestSplit(examples, perm).value;
      var (files', transform) := Cached(files, cachePath, build(split.train));
      if transform.Some? {
        SaveAllKeeps(files', transform.value, fams, split.train, score, test, name, cachePath);
        SaveAllWritesPipelines(files', transform.value, fams, split.train, score, test, name);
      }
    }
  }

  /** One `model_evaluation` call: search, refit, score, save. */
  method EvaluateFamily(store: ArtifactStore, transform: Artifact, fam: Family, train: seq<Example>,
                        score: Scorer, test: Tester, name: Namer)
    returns (err: Option<EvalError>)
    modifies store
    ensures var e := Evaluation(transform, fam, train, score, test);
      && (e.Err? ==> err == Some(e.error) && store.files == old(store.files))
      && (e.Ok? ==> err == None && store.files == old(store.files)[name(fam.name, e.value.1) := e.value.0])
  {
    var e := Evaluation(transform, fam, train, score, test);
    if e.Err? {
      return Some(e.error);
    }
    var (pipeline, accuracy) := e.value;
    store.Save(name(fam.name, accuracy), pipeline);
    err := None;
  }

  /** The `k`-th of the calls: the files it leaves and its failure, if
      any, against the run from that family on. */
  method EvaluateNext(store: ArtifactStore, transform: Artifact, fams: seq<Family>, k: nat, train: seq<Example>,
                      score: Scorer, test: Tester, name: Namer)
    returns (failed: Option<(string, EvalError)>)
    requires k < |fams|
    modifies store
    ensures var rest := SaveAll(old(store.files), transform, fams[k..], train, score, test, name);
      if failed.Some? then rest == (store.files, failed)
      else rest == SaveAll(store.files, transform, fams[k + 1..], train, score, test, name)
  {
    SaveAllStep(store.files, transform, fams, k, train, score, test, name);
    var err := EvaluateFamily(store, transform, fams[k], train, score, test, name);
    failed := if err.Some? then Some((fams[k].name, err.value)) else None;
  }

  /** The four `model_evaluation` calls at the end of each script, one after
      the other; the first call that raises ends the script. */
  method EvaluateFour(store: ArtifactStore, transform: Artifact, fams: seq<Family>, train: seq<Example>,
                      score: Scorer, test: Tester, name: Namer)
    returns (failed: Option<(string, EvalError)>)
    requires |fams| == 4
    modifies store
    ensures (store.files, failed) == SaveAll(old(store.files), transform, fams, train, score, test, name)
  {
    ghost var goal := SaveAll(store.files, transform, fams, train, score, test, name);
    assert fams[0..] == fams;
    failed := EvaluateNext(store, transform, fams, 0, train, score, test, name);
    if failed.Some? {
      return;
    }
    assert goal == SaveAll(store.files, transform, fams[1..], train, score, test, name);
    failed := EvaluateNext(store, transform, fams, 1, train, score, test, name);
    if failed.Some? {
      return;
    }
    assert goal == SaveAll(store.files, transform, fams[2..], train, score, test, name);
    failed := EvaluateNext(store, transform, fams, 2, train, score, test, name);
    if failed.Some? {
      return;
    }
    assert goal == SaveAll(store.files, transform, fams[3..], train, score, test, name);
    failed := EvaluateNext(store, transform, fams, 3, train, score, test, name);
    if failed.None? {
      assert goal == SaveAll(store.files, transform, fams[4..], train, score, test, name);
      assert fams[4..] == [];
    }
  }
}
