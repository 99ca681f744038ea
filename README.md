# Stock-news movement prediction: a verified model of its core

The repository trains classifiers that guess, from a news article's summary,
whether a stock's price moves up the next trading day. It serves those
models, and a live news feed, over small Flask services. This project models
the core of that system in Dafny and proves properties of the model:

* **Data preparation**, the same in both training scripts. Take the first
  10,000 spreadsheet rows and sort them by date. Drop rows without a summary
  and rows whose open and close prices are equal. Label each row 1 when the
  next row's close is strictly higher, and drop the last row. Then split
  off ceil(20%) of a shuffle as the test set (`Dataset`).
* **Grid search** as `GridSearchCV` runs it (`GridSearch`). The candidates
  are the Cartesian product of the listed values, with the parameter names
  sorted. The chosen setting is the first candidate with the highest mean
  cross-validation score; a score can be NaN.
* **The artifact directory** (`Artifacts`). `joblib` files are modelled as a
  map from paths to artifacts. The text transform is cached in an
  existence-checked file: an existing file is loaded and nothing is written.
  Model file names carry the test accuracy rendered with two decimals.
* **The two training scripts** (`Training`, `MovementModels`, `BaseModel`):
  * the four estimator families and their exact grids;
  * the cached vectorizer (`movement_models.py`, next to the script) or
    column transformer (`base_model.py`, in the working directory);
  * the model file names, kept verbatim by one script and normalised with
    `lower().replace(' ', '_')` by the other;
  * the four `model_evaluation` calls run in order, where the first call
    that raises (in its search or in the refit) ends the script, as does a
    vectorizer fit that raises.
* **The prediction service** (`Home`): three POST handlers over models
  loaded at start-up. They cover how the article text and topic are read,
  the not-found payload of an unknown topic, the `up`/`down` mapping, and
  every exception turned into an `Error` payload.
* **The live news feed** (`LiveFeed`, with `Calendar`):
  * the table of interval start dates (today, and 1, 4, 12 and 24 weeks
    back);
  * the loop over the news API's feed, which scrapes each article's
    paragraphs and reformats `YYYYMMDDTHH…` stamps as `YYYY-MM-DD`;
  * the loop stops at the first dated article before the start date, by
    Python string comparison, and skips an article whose processing raises;
  * the handler's error payloads.

The fitted estimators, TF-IDF, cross-validation and test scoring are inputs.
A `Scorer` gives each candidate's mean score. A `Tester` gives the refit
pipeline's accuracy in hundredths, or nothing when the refit raises. A
`TermTest` says whether a summary keeps a term once English stop words are
removed. The clock (`today`), the shuffle, the news API and the page scraper
are also inputs. Prediction models are opaque
functions from the article text to a number or a raised error.

Where code updates state in place, the model does too:
* `ArtifactStore` is a class whose `files` map the methods reassign;
* the date sort is an insertion sort on an `array`;
* the `stock_data` loop, the paragraph loop and the four evaluation calls
  are methods.

The date sort is proved to leave its array ordered by date and a
permutation of its input. Each of the other methods is proved equal to a
specification function, and the properties are lemmas about those
functions.

## Model

| member | source | states |
|---|---|---|
| Dataset.Head | Models/movement_models/movement_models.py:21 | `head(10000)` keeps min(n, 10000) rows, and they are the table's first rows |
| Dataset.SortByDate | Models/movement_models/movement_models.py:24 | the sort in place leaves the array date-ordered and holds the same rows with the same multiplicity |
| Dataset.DropMissingSummary | Models/movement_models/movement_models.py:27 | a row survives exactly when it was present and has a summary; no row is duplicated, and date order is kept |
| Dataset.DropUnchangedPrice | Models/movement_models/movement_models.py:32 | a row survives exactly when it was present and its open and close differ; no row is duplicated, and date order is kept |
| Dataset.DropMissingSummaryCounts | Models/movement_models/movement_models.py:27 | each row with a summary survives exactly as many times as it occurs, and a row without one not at all |
| Dataset.DropUnchangedPriceCounts | Models/movement_models/movement_models.py:32 | each row with distinct prices survives exactly as many times as it occurs, and a row with equal prices not at all |
| Dataset.DropMissingSummaryConcat | Models/movement_models/movement_models.py:27 | the filter works row by row: filtering two tables one after the other is filtering their concatenation, so the kept rows stay in their order |
| Dataset.DropUnchangedPriceConcat | Models/movement_models/movement_models.py:32 | the filter works row by row: filtering two tables one after the other is filtering their concatenation, so the kept rows stay in their order |
| Dataset.FilteredCounts | Models/movement_models/movement_models.py:27-32 | after both filters each row with a summary and distinct prices occurs exactly as often as in the sorted table, and every other row not at all |
| Dataset.DeriveLabels | Models/movement_models/movement_models.py:36-39 | one example per surviving row but the last. Example i is row i, labelled 1 exactly when row i+1 closes strictly higher, otherwise 0 |
| Dataset.LabelsOfRows | Models/movement_models/movement_models.py:36-39 | for any rows, labelling by the next close and dropping the last row gives one example per row but the last, labelled 1 exactly when the next row closes strictly higher |
| Dataset.DeriveRows | Models/movement_models/movement_models.py:27-39 | every prepared row has a summary and distinct prices. The rows are date-ordered and are taken, with multiplicity, from the sorted rows |
| Dataset.PrepareDataset | Models/movement_models/movement_models.py:21-39 | the examples are the derivation applied to some date-sorted permutation of the first 10,000 rows. They have summaries and changed prices, are date-ordered and come from those rows. Models/base_model.py:21-39 is the same code |
| Dataset.TestCount | Models/movement_models/movement_models.py:47 | the test share is the least k with 5k >= n, which is ceil(0.2 n), and never more than n |
| Dataset.SplitSizes | Models/movement_models/movement_models.py:47 | the split raises exactly when fewer than two rows are prepared. Otherwise the test set has ceil(0.2 n) rows and the training set the rest |
| Dataset.SplitPartitionsPositions | Models/movement_models/movement_models.py:47 | the test positions and the training positions are disjoint and together are every position |
| Dataset.SplitKeepsExamples | Models/movement_models/movement_models.py:47 | the two sets together hold exactly the prepared examples, with multiplicity |
| GridSearch.SortByName | Models/movement_models/movement_models.py:81 | the grid's entries, reordered by name: a permutation, strictly ordered when the names are distinct |
| GridSearch.CandidateCount | Models/movement_models/movement_models.py:81 | the number of candidates is the product of the value-list lengths |
| GridSearch.CandidatesCover | Models/movement_models/movement_models.py:81 | a setting is a candidate exactly when it assigns each parameter, in name order, one of that parameter's listed values |
| GridSearch.CandidateSetsEveryName | Models/movement_models/movement_models.py:81 | every candidate gives each parameter of the grid one of its listed values |
| GridSearch.BestIndexIsBest | Models/movement_models/movement_models.py:84-87 | `best_index_`: when some score is a number, the winner has a number at least every other number, and beats every candidate before it. When no score is a number, the winner is the first candidate |
| GridSearch.Search | Models/movement_models/movement_models.py:81-84 | a successful search returns one of the grid's candidates |
| GridSearch.SearchPicksFirstBest | Models/movement_models/movement_models.py:81-87 | when some candidate has a score, the chosen setting is a candidate whose score is at least every other candidate's |
| GridSearch.SearchFails | Models/movement_models/movement_models.py:81-84 | the search raises exactly when some parameter has no values, the training rows cannot be split into three stratified folds, or every fit of every candidate fails. The first of these, in that order, is the error raised: the parameter's name, `TooFewSamples` for fewer than three rows, `ClassesTooSmall` when no class has three members, and otherwise the count of failed fits |
| GridSearch.BinaryCounts | Models/movement_models/movement_models.py:36-39 | with labels 0 and 1 every training row is in one of the two classes |
| GridSearch.BinarySplit | Models/movement_models/movement_models.py:81-84 | for 0/1 labels the three-fold split raises on fewer than three rows, and never raises from five rows on |
| GridSearch.SearchTieBreak | Models/movement_models/movement_models.py:81-87 | ties go to the first candidate in grid order: every earlier candidate with a score scores strictly less than the chosen one. With no score at all the first candidate is chosen |
| GridSearch.SingleValueGrid | Models/movement_models/movement_models.py:81-84 | a grid of single-value lists has one candidate. The search returns it unless the split raises or every fit of it failed |
| Artifacts.ArtifactStore.GetOrBuild | Models/movement_models/movement_models.py:54-63 | an existing file is returned and nothing changes. Otherwise a successful build is written under that path and returned, and a build that raises writes nothing |
| Artifacts.ArtifactStore.Save | Models/movement_models/movement_models.py:70 | `joblib.dump` writes the path and leaves every other file alone |
| Artifacts.RepeatedSessions | Models/movement_models/movement_models.py:54-63 | the first session gets the file on disk, or else its own build. Once it got a transform the second session gets the same one, and after a failed build the second session builds its own |
| Artifacts.FilenameRoundTrip | Models/movement_models/movement_models.py:69 | a model file name gives back its display name and its accuracy in hundredths, for any name |
| Artifacts.FilenameIdentity | Models/movement_models/movement_models.py:69-70 | two saves hit the same file exactly when the names and the rounded accuracies agree |
| Artifacts.ModelFilenameShape | Models/movement_models/movement_models.py:69 | a model file name is 21 characters longer than the name, and the `_` of `_accuracy_` follows the name |
| Artifacts.JoinPathEnds | Models/movement_models/movement_models.py:50 | `os.path.join(dir, f)` ends with `f` |
| Artifacts.JoinPathDistinct | Models/movement_models/movement_models.py:50 | files joined onto one directory stay distinct when they differ at the same distance from the end |
| Artifacts.NormalizeNameChars | Models/base_model.py:128 | `lower().replace(' ', '_')` keeps the length and maps each space to `_` and each capital to its small letter. Nothing else changes, and no space or capital is left |
| Artifacts.NormalizeNameIdempotent | Models/base_model.py:128 | normalising a normalised name changes nothing |
| Training.Evaluation | Models/movement_models/movement_models.py:74-96 | the call raises exactly when the search raises (with the search's error) or the refit of the chosen setting raises. Otherwise the result is a pipeline of the shared transform and the estimator with the searched setting, fitted on the training rows, with its test accuracy |
| Training.EvaluationPicksBest | Models/movement_models/movement_models.py:81-96 | the saved pipeline's setting is a candidate of its grid, scoring at least every other scored candidate |
| Training.TinyTrainingSetSavesNothing | Models/movement_models/movement_models.py:47-84 | with fewer than three training rows the first family's search raises `TooFewSamples` before any fit, and no model file is written |
| Training.SaveAllFailure | Models/movement_models/movement_models.py:124-129 | the run gets through all families exactly when no evaluation raises. Otherwise it reports the first family whose evaluation raised, with its error |
| Training.SaveAllKeeps | Models/movement_models/movement_models.py:66-71 | a path no model file name can equal keeps its contents, or stays absent |
| Training.SaveAllWritesPipelines | Models/movement_models/movement_models.py:74-96 | every file the evaluations write holds a pipeline around the shared transform fitted on the training rows. Other files are untouched |
| Training.RunEffects | Models/movement_models/movement_models.py:47-129 | with fewer than two rows nothing is written. A transform that is not on disk and whose build raises stops the run with nothing written. Otherwise the cache file holds the transform used, unchanged if it existed, and every other written file is a pipeline around that transform fitted on the training rows |
| Training.EvaluateFamily | Models/movement_models/movement_models.py:74-96 | one `model_evaluation` call: on success it saves the pipeline under its name and accuracy. When the search or the refit raises it writes nothing and returns the error |
| Training.EvaluateNext | Models/movement_models/movement_models.py:126-129 | the k-th call leaves the files from which the rest of the run continues, or stops the run with its failure |
| Training.EvaluateFour | Models/movement_models/movement_models.py:124-129 | the four calls in order leave exactly the files and failure of the whole run |
| MovementModels.LogRegCount | Models/movement_models/movement_models.py:100-104 | the logistic-regression grid has 45 candidates |
| MovementModels.RandomForestCount | Models/movement_models/movement_models.py:106-110 | the random-forest grid has 80 candidates |
| MovementModels.GradientBoostingCount | Models/movement_models/movement_models.py:112-116 | the gradient-boosting grid has 48 candidates |
| MovementModels.KnnCount | Models/movement_models/movement_models.py:118-122 | the nearest-neighbours grid has 48 candidates |
| MovementModels.ModelPathIsNotVectorizer | Models/movement_models/movement_models.py:50-69 | no model file can overwrite the cached vectorizer |
| MovementModels.RunWithVectorizer | Models/movement_models/movement_models.py:47-129 | for any families and model names that avoid the vectorizer's path: the effects of a run whose transform is the vectorizer fit, as `TrainKeepsVectorizer` states them |
| MovementModels.TrainKeepsVectorizer | Models/movement_models/movement_models.py:47-129 | the vectorizer file ends up holding the vectorizer on disk, or else a fresh one with 500 features and English stop words fitted on the training rows. Every saved model wraps a copy of it refitted on the training rows. With fewer than two rows nothing is written. When the file is absent and a training summary is missing or none has a term, the fit raises and nothing is written |
| MovementModels.Train | Models/movement_models/movement_models.py:47-129 | the script from the split on leaves exactly the files and failure its specification gives |
| MovementModels.TrainMovementModels | Models/movement_models/movement_models.py:21-129 | the whole script: the outcome is the specification run on the examples derived from some date sort of the first 10,000 rows |
| BaseModel.LogRegCount | Models/base_model.py:51-56 | the logistic-regression grid has 90 candidates |
| BaseModel.RandomForestCount | Models/base_model.py:58-63 | the random-forest grid has 192 candidates |
| BaseModel.GradientBoostingCount | Models/base_model.py:65-70 | the gradient-boosting grid has 144 candidates |
| BaseModel.KnnCount | Models/base_model.py:72-77 | the nearest-neighbours grid has 108 candidates |
| BaseModel.EveryCandidateSetsMaxFeatures | Models/base_model.py:51-77 | every candidate of every family sets `columntransformer__tfidf__max_features` to one of its grid's listed sizes |
| BaseModel.ModelName | Models/base_model.py:105-108 | the file name parses back to the normalised display name and the accuracy. It is 21 characters longer than the name and has no space or capital where the name was |
| BaseModel.ModelNameIsNotPreprocessor | Models/base_model.py:83-106 | no model file can overwrite the cached preprocessor |
| BaseModel.TrainKeepsPreprocessor | Models/base_model.py:80-135 | the preprocessor file ends up holding the one on disk, or else the unfitted column transformer. Every saved model wraps a copy of it refitted on the training rows. With fewer than two rows nothing is written |
| BaseModel.Train | Models/base_model.py:47-135 | the script from the split on leaves exactly the files and failure its specification gives |
| BaseModel.TrainBaseModels | Models/base_model.py:17-135 | the whole script: the outcome is the specification run on the examples derived from some date sort of the first 10,000 rows |
| Home.LoadService | Website/flask_app_home.py:12-24 | start-up succeeds exactly when all three files exist in the app's directory. The movement slot holds the movement file's model, the sentiment slot the sentiment file's, and the relevance map the dictionary file's. The first missing file, in load order, is reported by its path |
| Home.MovementFileIsTrainingOutput | Website/flask_app_home.py:15 | the movement model loaded is the file the movement training script writes for "Random Forest" at accuracy 0.72 |
| Home.ArticleText | Website/flask_app_home.py:31 | the text is the `text` field of the body's `article` object. Reading raises exactly when the body is not an object, or its `article` is present and not an object, with `'… object has no attribute 'get'` for that value |
| Home.MissingFieldsDefault | Website/flask_app_home.py:31-35 | a missing `article` or `text` reads as "". A missing topic asks for topic "" and gets its not-found payload |
| Home.UnknownTopic | Website/flask_app_home.py:34-35 | an unknown string topic gets exactly the not-found payload, and no model's behaviour affects the answer |
| Home.KnownTopic | Website/flask_app_home.py:37-47 | a known topic answers with its model's number on the text, or an error payload exactly when that model raises |
| Home.UnhashableTopic | Website/flask_app_home.py:32-34 | a list or object topic gets Python's `unhashable type` error payload |
| Home.SentimentCarriesPrediction | Website/flask_app_home.py:57-63 | the sentiment payload carries exactly the model's number |
| Home.MovementUpDown | Website/flask_app_home.py:76-87 | the answer is "up" exactly when the model says 1, and "down" exactly for any other number |
| Home.ErrorsBecomePayloads | Website/flask_app_home.py:29-90 | an unreadable body, a body or article that is not an object, and a model's exception all reach the client as `{'Error': message}` |
| LiveFeed.PrevDay | Website/flask_app_live_feed.py:18-21 | the day before a valid date is valid and one day earlier |
| LiveFeed.DaysBack | Website/flask_app_live_feed.py:18-21 | `d - timedelta(days=n)` is valid and n days earlier |
| LiveFeed.IntervalStarts | Website/flask_app_live_feed.py:13-21 | the table has exactly the five intervals, each the ISO date of today minus its number of weeks |
| LiveFeed.IntervalsOrdered | Website/flask_app_live_feed.py:17-21 | a longer interval's start is a strictly smaller string |
| Calendar.OrdinalOrder | Website/flask_app_live_feed.py:18-21 | one date is before another exactly when its day number is smaller |
| Calendar.IsoOrder | Website/flask_app_live_feed.py:81 | comparing ISO date strings agrees exactly with calendar order |
| Calendar.Iso | Website/flask_app_live_feed.py:80 | `strftime("%Y-%m-%d")` is ten characters with dashes at positions 4 and 7 |
| Calendar.ParseCompactReformats | Website/flask_app_live_feed.py:80 | `strptime(p, "%Y%m%dT%H")` succeeds exactly on a well-shaped stamp with a real date. Its reformatted date is the stamp's digits as `YYYY-MM-DD` |
| Calendar.IsoOfDigits | Website/flask_app_live_feed.py:80 | a valid date read from four, two and two digits renders in ISO form as exactly those digits joined by dashes |
| Util.LexLessIrreflexive | Website/flask_app_live_feed.py:81 | string `<` is irreflexive |
| Util.LexLessAsymmetric | Website/flask_app_live_feed.py:81 | string `<` is asymmetric |
| Util.LexLessTransitive | Website/flask_app_live_feed.py:81 | string `<` is transitive |
| Util.LexLessTotal | Website/flask_app_live_feed.py:81 | of two different strings one is `<` the other |
| LiveFeed.TrimStart | Website/flask_app_live_feed.py:70 | `lstrip()` is the suffix after the leading white space and starts with no white space |
| LiveFeed.TrimEnd | Website/flask_app_live_feed.py:70 | `rstrip()` is the prefix before the trailing white space and ends with no white space |
| LiveFeed.Strip | Website/flask_app_live_feed.py:70 | `strip()` neither starts nor ends with white space |
| LiveFeed.StripIdempotent | Website/flask_app_live_feed.py:70 | stripping twice strips nothing more |
| LiveFeed.PageText | Website/flask_app_live_feed.py:68-70 | the page text is empty exactly when the page has no paragraph |
| LiveFeed.JoinParagraphs | Website/flask_app_live_feed.py:68-70 | the paragraph loop builds exactly the page text |
| LiveFeed.Recorded | Website/flask_app_live_feed.py:87-98 | a record is made exactly when `article_text` is bound. It carries the formatted date, the URL and that text |
| LiveFeed.OutcomeStops | Website/flask_app_live_feed.py:72-85 | the body breaks exactly on a stamp that parses to a date before a known start date |
| LiveFeed.StopsExactly | Website/flask_app_live_feed.py:55-85 | whether an article ends the loop depends only on the article, the start date and the scraper, not on the ticker or on earlier text |
| LiveFeed.UndatedKept | Website/flask_app_live_feed.py:72-98 | an undated article never ends the loop. It is recorded with date "NA" when there is text to record |
| LiveFeed.KeptDateReformatted | Website/flask_app_live_feed.py:79-95 | a kept stamped article's date is its stamp's digits as `YYYY-MM-DD`, on or after the start date |
| LiveFeed.NonObjectSkipped | Website/flask_app_live_feed.py:58 | an article that is not an object is skipped and leaves the text as it was |
| LiveFeed.InertSkipped | Website/flask_app_live_feed.py:55-104 | an article that raises before touching `article_text` is skipped, and the result is as if it were not in the feed |
| LiveFeed.NothingAfterStop | Website/flask_app_live_feed.py:81-82 | nothing after a stopping article reaches the result |
| LiveFeed.CollectStock | Website/flask_app_live_feed.py:90 | every record carries the requested ticker |
| LiveFeed.CollectOrigins | Website/flask_app_live_feed.py:51-98 | the records come from feed articles in feed order, each with its article's title, URL and summary, and no article up to a recorded one stops the loop |
| LiveFeed.DatesRespectStart | Website/flask_app_live_feed.py:32-82 | every dated record is on or after the start date. With an interval not in the table no article stops the loop |
| LiveFeed.EarlierStartExtends | Website/flask_app_live_feed.py:79-82 | with an earlier start date the records of the later one come first, and more may follow |
| LiveFeed.ProcessArticle | Website/flask_app_live_feed.py:55-104 | the loop body, statement by statement, takes exactly the specified step and leaves the specified text |
| LiveFeed.RecordArticle | Website/flask_app_live_feed.py:72-98 | the body from the `time_published` test on takes exactly the specified step |
| LiveFeed.GetArticles | Website/flask_app_live_feed.py:26-114 | the handler with its `stock_data` loop answers exactly as its specification does |

## Left out

- Fitting and scoring are not modelled: TF-IDF, the estimators, 3-fold
  cross-validation, `predict` and `accuracy_score` are inputs. A `Scorer`
  gives each candidate's mean score and a `Tester` gives the test accuracy,
  or nothing when the refit raises. Which rows fall into which of the three
  stratified folds is not modelled; only the split's errors are, and its
  warning about a class with fewer than three members only prints.
- The refit of the cached transform inside `GridSearchCV` is recorded only
  as the file's `first` transform and the pipeline's training rows. The
  transform's fitted vocabulary is not computed.
- `classification_report` and every `print` are left out: they have no
  effect on files or answers.
- Floating point is not modelled. Accuracies are hundredths already rounded
  the way `:.2f` rounds, scores are integers, and a JSON float carries its
  `repr` text.
- The shuffle and the clock are parameters: `perm`/`shuffle` and `today`.
  `n_jobs` and `verbose` change nothing observable here.
- File and network I/O are modelled:
  - `read_excel`, `os.path.isfile`, `joblib.load` and `joblib.dump` are a
    map from paths to artifacts;
  - `requests` and BeautifulSoup are the `NewsApi` and `Fetch` inputs.
- Flask, CORS and a request body that is not JSON are reduced to the
  `Request` and reply datatypes; `get_articles` assumes its JSON body was
  already decoded.
- pandas details are simplified. A missing price (NaN) is not modelled:
  prices are integers. A missing date (NaT, which `sort_values` puts last)
  is not modelled either: dates are integers. The default sort is not stable, so the model allows
  any date-sorted permutation. `DataFrame(...).to_dict` is the list of
  records itself.
- `PageText`: how a page's text decomposes over its paragraphs is not
  proved beyond the empty case and the loop's step.
- `FeedItems`: a feed that is a JSON object iterates its keys. Each key is a
  non-object article and is skipped, so the model uses an empty list.
- `Calendar.ParseCompact`: `strptime`'s lenient field widths (one-digit
  months or hours) are not modelled; the parser accepts only the full
  `YYYYMMDDTH` shape, with the `T` in either case.
- `LowerChar` and `IsSpace` cover ASCII case and the listed white-space
  characters only, not full Unicode `lower()`.
- `LiveFeed.Intervals` requires today to be more than 168 days after
  1 January of year 1. The race between the two `datetime.now()` calls at
  midnight is not modelled.
- The source does not evaluate each family in isolation: the first
  `model_evaluation` call that raises ends the script, and the model
  follows the code.
- Why a fit raises is reduced to the inputs. A `Tester` that gives nothing
  stands for any exception in the refit or the prediction. The vectorizer
  fit of `movement_models.py` raises only on a missing summary or an empty
  vocabulary, and `TermTest` decides the vocabulary. The column transformer
  of `base_model.py` is saved unfitted, so building it cannot raise.
- The summary service (`Website/flask_app_summary.py`), the React pages and
  the Streamlit pages are not part of this model.
