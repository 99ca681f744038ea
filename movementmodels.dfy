/** The movement training script: the vectorizer it caches next to itself,
    its four grids and display names, and its run from the spreadsheet rows
    to the saved models. */
module MovementModels {
  import opened Util
  import opened GridSearch
  import opened Dataset
  import opened Artifacts
  import opened Training

  const LogRegGrid: Grid := [
    ("logisticregression__C", [FloatV(0.25), FloatV(0.5), IntV(1), FloatV(1.5), IntV(2)]),
    ("logisticregression__penalty", [StrV("l1"), StrV("l2"), StrV("none")]),
    ("logisticregression__max_iter", [IntV(50), IntV(100), IntV(150)])
  ]

  const RandomForestGrid: Grid := [
    ("randomforestclassifier__n_estimators", [IntV(450), IntV(500), IntV(550), IntV(600)]),
    ("randomforestclassifier__max_depth", [NoneV, IntV(40), IntV(50), IntV(60), IntV(80)]),
    ("randomforestclassifier__min_samples_split", [IntV(5), IntV(10), IntV(15), IntV(20)])
  ]

  const GradientBoostingGrid: Grid := [
    ("gradientboostingclassifier__n_estimators", [IntV(30), IntV(50), IntV(75), IntV(100)]),
    ("gradientboostingclassifier__learning_rate", [FloatV(0.05), FloatV(0.1), FloatV(0.15)]),
    ("gradientboostingclassifier__max_depth", [NoneV, IntV(2), IntV(3), IntV(4)])
  ]

  const KnnGrid: Grid := [
    ("kneighborsclassifier__n_neighbors", [IntV(5), IntV(10), IntV(15)]),
    ("kneighborsclassifier__algorithm", [StrV("auto"), StrV("ball_tree"), StrV("kd_tree"), StrV("brute")]),
    ("kneighborsclassifier__leaf_size", [IntV(10), IntV(30), IntV(50), IntV(70)])
  ]

  /** The four `model_evaluation` calls, in the order the script makes them. */
  const Families: seq<Family> := [
    Family("LogisticRegression", LogRegGrid, "Logistic Regression"),
    Family("RandomForestClassifier", RandomForestGrid, "Random Forest"),
    Family("GradientBoostingClassifier", GradientBoostingGrid, "Gradient Boosting"),
    Family("KNeighborsClassifier", KnnGrid, "K-Nearest Neighbors")
  ]

  /** The logistic-regression grid has 5 * 3 * 3 candidates. */
  lemma LogRegCount()
    ensures |Candidates(LogRegGrid)| == 45
  {
    CountOfThree(LogRegGrid, 5, 3, 3);
  }

  /** The random-forest grid has 4 * 5 * 4 candidates. */
  lemma RandomForestCount()
    ensures |Candidates(RandomForestGrid)| == 80
  {
    CountOfThree(RandomForestGrid, 4, 5, 4);
  }

  /** The gradient-boosting grid has 4 * 3 * 4 candidates. */
  lemma GradientBoostingCount()
    ensures |Candidates(GradientBoostingGrid)| == 48
  {
    CountOfThree(GradientBoostingGrid, 4, 3, 4);
  }

  /** The nearest-neighbours grid has 3 * 4 * 4 candidates. */
  lemma KnnCount()
    ensures |Candidates(KnnGrid)| == 48
  {
    CountOfThree(KnnGrid, 3, 4, 4);
  }

  const VectorizerFile := "movement_vectorizer.joblib"

  /** Where the vectorizer is cached: next to the script. */
  function VectorizerPath(dir: string): string {
    JoinPath(dir, VectorizerFile)
  }

  /** Whether a summary keeps at least one token once the English stop words
      are removed; tokenising is not part of this model. */
  type TermTest = string -> bool

  /** `TfidfVectorizer(max_features=500, stop_words='english').fit(X_train)`,
      or None where the fit raises: on a missing summary, or when no
      training summary has a term left (an empty vocabulary). */
  function Vectorize(hasTerms: TermTest, train: seq<Example>): Option<Artifact> {
    if (forall i :: 0 <= i < |train| ==> train[i].row.summary.Some?)
       && (exists i :: 0 <= i < |train| && train[i].row.summary.Some? && hasTerms(train[i].row.summary.value))
    then Some(TransformArtifact(TfidfVectorizer(Some(500), Some("english"), Some(train))))
    else None
  }

  /** The fit as the training run calls it. */
  function Vectorizer(hasTerms: TermTest): seq<Example> -> Option<Artifact> {
    (train: seq<Example>) => Vectorize(hasTerms, train)
  }

  /** `save_model`'s path: the display name kept as it is, spaces included,
      in the script's directory. */
  function ModelPath(dir: string): Namer {
    (name: string, h: Hundredths) => JoinPath(dir, ModelFilename(name, h))
  }

  /** No model file can overwrite the cached vectorizer: 21 characters from
      the end a model filename has the `_` of `_accuracy_`, the vectorizer's
      name an `e`. */
  lemma ModelPathIsNotVectorizer(dir: string, name: string, h: Hundredths)
    ensures ModelPath(dir)(name, h) != VectorizerPath(dir)
  {
    ModelFilenameShape(name, h);
    assert |VectorizerFile| == 26 && VectorizerFile[5] == 'e';
    JoinPathDistinct(dir, ModelFilename(name, h), VectorizerFile, 21);
  }

  /** The script from the split on: what it leaves in its directory and why it
      stopped early, if it did. */
  function TrainSpec(files: map<string, Artifact>, dir: string, examples: seq<Example>, perm: seq<nat>,
                     hasTerms: TermTest, score: Scorer, test: Tester): (map<string, Artifact>, Option<Failure>)
    requires IsPermutation(perm, |examples|)
  {
    Run(files, examples, perm, VectorizerPath(dir), Vectorizer(hasTerms), Families, score, test, ModelPath(dir))
  }

  /** What a run with the vectorizer fit leaves at `path` and beside it, for
      any families and any model names that avoid `path`. */
  lemma RunWithVectorizer(files: map<string, Artifact>, examples: seq<Example>, perm: seq<nat>, path: string,
                          hasTerms: TermTest, fams: seq<Family>, score: Scorer, test: Tester, name: Namer)
    requires IsPermutation(perm, |examples|)
    requires forall n: string, h: Hundredths :: name(n, h) != path
    ensures var (out, failure) := Run(files, examples, perm, path, Vectorizer(hasTerms), fams, score, test, name);
      && (|examples| < 2 ==> out == files)
      && (|examples| >= 2 ==>
            var train := TrainTestSplit(examples, perm).value.train;
            var fits := (forall i :: 0 <= i < |train| ==> train[i].row.summary.Some?)
                        && exists i :: 0 <= i < |train| && hasTerms(train[i].row.summary.value);
            var vec := if path in files then files[path]
                       else TransformArtifact(TfidfVectorizer(Some(500), Some("english"), Some(train)));
            && (path !in files && !fits ==> out == files && failure == Some(TransformFitFailed))
            && (path in files || fits ==>
                  && path in out && out[path] == vec
                  && forall p :: p in out && p != path ==>
                       (p in files && out[p] == files[p])
                       || (out[p].PipelineArtifact? && out[p].first == vec && out[p].trainedOn == train)))
  {
    RunEffects(files, examples, perm, path, Vectorizer(hasTerms), fams, score, test, name);
    if |examples| >= 2 {
      var train := TrainTestSplit(examples, perm).value.train;
      assert Vectorizer(hasTerms)(train) == Vectorize(hasTerms, train);
    }
  }

  /** A run leaves the vectorizer file holding the vectorizer it used: the
      one on disk if there was one, else a fresh one with 500 features and
      English stop words fitted on the training rows. Every model it saves
      is a pipeline around that vectorizer fitted on the training rows.
      With fewer than two prepared rows nothing is written, and when the
      file is absent and no training summary has a term the fit raises and
      nothing is written either. */
  lemma TrainKeepsVectorizer(files: map<string, Artifact>, dir: string, examples: seq<Example>, perm: seq<nat>,
                             hasTerms: TermTest, score: Scorer, test: Tester)
    requires IsPermutation(perm, |examples|)
    ensures var (out, failure) := TrainSpec(files, dir, examples, perm, hasTerms, score, test);
      && (|examples| < 2 ==> out == files)
      && (|examples| >= 2 ==>
            var train := TrainTestSplit(examples, perm).value.train;
            var fits := (forall i :: 0 <= i < |train| ==> train[i].row.summary.Some?)
                        && exists i :: 0 <= i < |train| && hasTerms(train[i].row.summary.value);
            var vec := if VectorizerPath(dir) in files then files[VectorizerPath(dir)]
                       else TransformArtifact(TfidfVectorizer(Some(500), Some("english"), Some(train)));
            && (VectorizerPath(dir) !in files && !fits ==> out == files && failure == Some(TransformFitFailed))
            && (VectorizerPath(dir) in files || fits ==>
                  && VectorizerPath(dir) in out && out[VectorizerPath(dir)] == vec
                  && forall p :: p in out && p != VectorizerPath(dir) ==>
                       (p in files && out[p] == files[p])
                       || (out[p].PipelineArtifact? && out[p].first == vec && out[p].trainedOn == train)))
  {
    forall n: string, h: Hundredths ensures ModelPath(dir)(n, h) != VectorizerPath(dir) {
      ModelPathIsNotVectorizer(dir, n, h);
    }
    RunWithVectorizer(files, examples, perm, VectorizerPath(dir), hasTerms, Families, score, test, ModelPath(dir));
  }

  /** Lines 47-129 of the script: split, load or fit the vectorizer, then
      evaluate the four families, stopping at the first fit or search that
      raises. */
  method Train(store: ArtifactStore, dir: string, examples: seq<Example>, perm: seq<nat>,
               hasTerms: TermTest, score: Scorer, test: Tester)
    returns (failure: Option<Failure>)
    requires IsPermutation(perm, |examples|)
    modifies store
    ensures (store.files, failure) == TrainSpec(old(store.files), dir, examples, perm, hasTerms, score, test)
  {
    var split := TrainTestSplit(examples, perm);
    if split.Err? {
      return Some(TooFewExamples(split.error));
    }
    var train := split.value.train;
    var vectorizer := store.GetOrBuild(VectorizerPath(dir), Vectorize(hasTerms, train));
    if vectorizer.None? {
      return Some(TransformFitFailed);
    }
    var failed := EvaluateFour(store, vectorizer.value, Families, train, score, test, ModelPath(dir));
    failure := if failed.None? then None else Some(EvaluationFailed(failed.value.0, failed.value.1));
  }

  /** The whole script on the spreadsheet's rows, with `shuffle(n)` the
      permutation `train_test_split` draws for `n` rows. */
  method TrainMovementModels(store: ArtifactStore, dir: string, table: seq<Row>, shuffle: nat -> seq<nat>,
                             hasTerms: TermTest, score: Scorer, test: Tester)
    returns (failure: Option<Failure>)
    requires forall n :: IsPermutation(shuffle(n), n)
    modifies store
    ensures exists sorted ::
      && IsDateSortOf(Head(table, RowCap), sorted)
      && (store.files, failure) ==
         TrainSpec(old(store.files), dir, Derive(sorted), shuffle(|Derive(sorted)|), hasTerms, score, test)
  {
    var examples := PrepareDataset(table);
    ghost var sorted :| IsDateSortOf(Head(table, RowCap), sorted) && examples == Derive(sorted);
    failure := Train(store, dir, examples, shuffle(|examples|), hasTerms, score, test);
  }
}
