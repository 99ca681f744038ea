/** The base-model training script: the column transformer it caches in the
    working directory, its four grids (each also searching the vectorizer's
    vocabulary size), and file names built from the normalised display
    name. */
module BaseModel {
  import opened Util
  import opened GridSearch
  import opened Dataset
  import opened Artifacts
  import opened Training

  const MaxFeaturesKey := "columntransformer__tfidf__max_features"

  const LogRegGrid: Grid := [
    (MaxFeaturesKey, [IntV(1500), IntV(2000), IntV(2500)]),
    ("logisticregression__C", [FloatV(0.25), FloatV(0.5), IntV(1), IntV(2), IntV(3)]),
    ("logisticregression__penalty", [StrV("l1"), StrV("l2")]),
    ("logisticregression__max_iter", [IntV(50), IntV(100), IntV(150)])
  ]

  const RandomForestGrid: Grid := [
    (MaxFeaturesKey, [IntV(1500), IntV(2000), IntV(250)]),
    ("randomforestclassifier__n_estimators", [IntV(450), IntV(500), IntV(550), IntV(600)]),
    ("randomforestclassifier__max_depth", [NoneV, IntV(40), IntV(50), IntV(60)]),
    ("randomforestclassifier__min_samples_split", [IntV(12), IntV(15), IntV(20), IntV(25)])
  ]

  const GradientBoostingGrid: Grid := [
    (MaxFeaturesKey, [IntV(1500), IntV(2000), IntV(2500)]),
    ("gradientboostingclassifier__n_estimators", [IntV(30), IntV(40), IntV(50), IntV(75)]),
    ("gradientboostingclassifier__learning_rate", [FloatV(0.05), FloatV(0.1), FloatV(0.15)]),
    ("gradientboostingclassifier__max_depth", [NoneV, IntV(2), IntV(3), IntV(4)])
  ]

  const KnnGrid: Grid := [
    (MaxFeaturesKey, [IntV(500), IntV(1000), IntV(1500)]),
    ("kneighborsclassifier__n_neighbors", [IntV(9), IntV(10), IntV(11)]),
    ("kneighborsclassifier__algorithm", [StrV("auto"), StrV("ball_tree"), StrV("kd_tree"), StrV("brute")]),
    ("kneighborsclassifier__leaf_size", [IntV(10), IntV(30), IntV(50)])
  ]

  /** The four `model_evaluation` calls, in the order the script makes them. */
  const Families: seq<Family> := [
    Family("LogisticRegression", LogRegGrid, "Logistic Regression"),
    Family("RandomForestClassifier", RandomForestGrid, "Random Forest"),
    Family("GradientBoostingClassifier", GradientBoostingGrid, "Gradient Boosting"),
    Family("KNeighborsClassifier", KnnGrid, "K-Nearest Neighbors")
  ]

  /** The logistic-regression grid has 3 * 5 * 2 * 3 candidates. */
  lemma LogRegCount()
    ensures |Candidates(LogRegGrid)| == 90
  {
    CountOfFour(LogRegGrid, 3, 5, 2, 3);
  }

  /** The random-forest grid has 3 * 4 * 4 * 4 candidates. */
  lemma RandomForestCount()
    ensures |Candidates(RandomForestGrid)| == 192
  {
    CountOfFour(RandomForestGrid, 3, 4, 4, 4);
  }

  /** The gradient-boosting grid has 3 * 4 * 3 * 4 candidates. */
  lemma GradientBoostingCount()
    ensures |Candidates(GradientBoostingGrid)| == 144
  {
    CountOfFour(GradientBoostingGrid, 3, 4, 3, 4);
  }

  /** The nearest-neighbours grid has 3 * 3 * 4 * 3 candidates. */
  lemma KnnCount()
    ensures |Candidates(KnnGrid)| == 108
  {
    CountOfFour(KnnGrid, 3, 3, 4, 3);
  }

  /** Every candidate of every family sets the vectorizer's vocabulary size
      to one of the values its grid lists for it. */
  lemma EveryCandidateSetsMaxFeatures(k: nat, c: Config)
    requires k < |Families| && c in Candidates(Families[k].grid)
    ensures exists v :: v in Families[k].grid[0].1 && (MaxFeaturesKey, v) in c
  {
    var g := Families[k].grid;
    assert g[0].0 == MaxFeaturesKey;
    CandidateSetsEveryName(g, c, MaxFeaturesKey, g[0].1);
  }

  const PreprocessorFile := "preprocessor.joblib"

  /** `ColumnTransformer(transformers=[('tfidf', TfidfVectorizer(), 'summary')],
      remainder='passthrough')`, saved unfitted. */
  const Preprocessor: Artifact :=
    TransformArtifact(ColumnTransformer([("tfidf", TfidfVectorizer(None, None, None), "summary")], "passthrough"))

  /** The preprocessor does not depend on the training rows, and building
      it cannot raise: it is saved without being fitted. */
  function BuildPreprocessor(train: seq<Example>): Option<Artifact> {
    Some(Preprocessor)
  }

  /** `save_model`'s file: the normalised display name, in the working
      directory. */
  function ModelName(name: string, h: Hundredths): (f: string)
    ensures ParseModelFilename(f) == Some((NormalizeName(name), h))
    ensures |f| == |name| + 21
    ensures forall i :: 0 <= i < |name| ==> f[i] != ' ' && !('A' <= f[i] <= 'Z')
  {
    FilenameRoundTrip(NormalizeName(name), h);
    NormalizeNameChars(name);
    ModelFilenameShape(NormalizeName(name), h);
    ModelFilename(NormalizeName(name), h)
  }

  function ModelNamer(): Namer {
    (name: string, h: Hundredths) => ModelName(name, h)
  }

  /** No model file is the cached preprocessor: a model file name is at
      least 21 characters long, the preprocessor's 19. */
  lemma ModelNameIsNotPreprocessor(name: string, h: Hundredths)
    ensures ModelNamer()(name, h) != PreprocessorFile
  {
    ModelFilenameShape(NormalizeName(name), h);
  }

  /** The script from the split on: what it leaves in the working directory
      and why it stopped early, if it did. */
  function TrainSpec(files: map<string, Artifact>, examples: seq<Example>, perm: seq<nat>,
                     score: Scorer, test: Tester): (map<string, Artifact>, Option<Failure>)
    requires IsPermutation(perm, |examples|)
  {
    Run(files, examples, perm, PreprocessorFile, BuildPreprocessor, Families, score, test, ModelNamer())
  }

  /** A run leaves the preprocessor file holding a preprocessor (the one on
      disk if there was one, else the unfitted one), and every model it
      saves wraps that preprocessor; with fewer than two prepared rows
      nothing is written. */
  lemma TrainKeepsPreprocessor(files: map<string, Artifact>, examples: seq<Example>, perm: seq<nat>,
                               score: Scorer, test: Tester)
    requires IsPermutation(perm, |examples|)
    ensures var out := TrainSpec(files, examples, perm, score, test).0;
      var pre := if PreprocessorFile in files then files[PreprocessorFile] else Preprocessor;
      && (|examples| < 2 ==> out == files)
      && (|examples| >= 2 ==>
            && PreprocessorFile in out && out[PreprocessorFile] == pre
            && forall p :: p in out && p != PreprocessorFile ==>
                 (p in files && out[p] == files[p])
                 || (out[p].PipelineArtifact? && out[p].first == pre
                     && out[p].trainedOn == TrainTestSplit(examples, perm).value.train))
  {
    forall n: string, h: Hundredths ensures ModelNamer()(n, h) != PreprocessorFile {
      ModelNameIsNotPreprocessor(n, h);
    }
    RunEffects(files, examples, perm, PreprocessorFile, BuildPreprocessor, Families, score, test, ModelNamer());
  }

  /** Lines 47-135 of the script: split, load or save the preprocessor, then
      evaluate the four families, stopping at the first call that raises. */
  method Train(store: ArtifactStore, examples: seq<Example>, perm: seq<nat>, score: Scorer, test: Tester)
    returns (failure: Option<Failure>)
    requires IsPermutation(perm, |examples|)
    modifies store
    ensures (store.files, failure) == TrainSpec(old(store.files), examples, perm, score, test)
  {
    var split := TrainTestSplit(examples, perm);
    if split.Err? {
      return Some(TooFewExamples(split.error));
    }
    var train := split.value.train;
    var preprocessor := store.GetOrBuild(PreprocessorFile, BuildPreprocessor(train));
    var failed := EvaluateFour(store, preprocessor.value, Families, train, score, test, ModelNamer());
    failure := if failed.None? then None else Some(EvaluationFailed(failed.value.0, failed.value.1));
  }

  /** The whole script on the spreadsheet's rows, with `shuffle(n)` the
      permutation `train_test_split` draws for `n` rows. */
  method TrainBaseModels(store: ArtifactStore, table: seq<Row>, shuffle: nat -> seq<nat>, score: Scorer, test: Tester)
    returns (failure: Option<Failure>)
    requires forall n :: IsPermutation(shuffle(n), n)
    modifies store
    ensures exists sorted ::
      && IsDateSortOf(Head(table, RowCap), sorted)
      && (store.files, failure) == TrainSpec(old(store.files), Derive(sorted), shuffle(|Derive(sorted)|), score, test)
  {
    var examples := PrepareDataset(table);
    ghost var sorted :| IsDateSortOf(Head(table, RowCap), sorted) && examples == Derive(sorted);
    failure := Train(store, examples, shuffle(|examples|), score, test);
  }
}
