/** The prediction service: three POST handlers over models loaded once at
    start-up. Each handler reads the article text (and, for relevance, the
    topic) from the JSON body, asks a model, and answers with a one-key JSON
    object; any exception becomes `{'Error': str(e)}`. The models are opaque
    functions from the article text to a prediction or a raised error, and a
    handler is a function of the loaded models and the request, so it cannot
    change them. */
module Home {
  import opened Util
  import opened Json
  import opened Artifacts

  /** What `model.predict([text])[0]` gives: a number, or the message of the
      exception it raises (a non-string text, for one). */
  datatype Answer = Predicted(value: real) | Raised(message: string)

  type Model = Json -> Answer

  /** The JSON object a handler returns, by its single key. */
  datatype Response =
    | ErrorBody(error: string)          // {'Error': ...}
    | RelevanceBody(prediction: real)   // {'prediction': float}
    | SentimentBody(sentiment: real)    // {'sentiment': ...}
    | MovementBody(direction: string)   // {'prediction': 'up' | 'down'}

  /** The three objects loaded at start-up. */
  datatype Service = Service(movement: Model, sentiment: Model, relevance: map<string, Model>)

  const MovementFile := "Random Forest_accuracy_0.72.joblib"
  const SentimentFile := "Random Forest Regression_mse_0.02_r2_0.22.joblib"
  const RelevanceFile := "best_models_dictionary.joblib"

  /** The message of the `FileNotFoundError` `joblib.load` raises. */
  function NotFound(path: string): string {
    "[Errno 2] No such file or directory: '" + path + "'"
  }

  /** Start-up: the three loads in order, from the directory of the app.
      `models` are the files holding one fitted model, `tables` the files
      holding a dict of them; the first missing file stops the app. */
  function LoadService(dir: string, models: map<string, Model>, tables: map<string, map<string, Model>>)
    : (r: Result<Service, string>)
    ensures r.Ok? <==>
              JoinPath(dir, MovementFile) in models && JoinPath(dir, SentimentFile) in models
              && JoinPath(dir, RelevanceFile) in tables
    ensures r.Ok? ==>
              && r.value.movement == models[JoinPath(dir, MovementFile)]
              && r.value.sentiment == models[JoinPath(dir, SentimentFile)]
              && r.value.relevance == tables[JoinPath(dir, RelevanceFile)]
    ensures JoinPath(dir, MovementFile) !in models ==> r == Err(NotFound(JoinPath(dir, MovementFile)))
    ensures JoinPath(dir, MovementFile) in models && JoinPath(dir, SentimentFile) !in models ==>
              r == Err(NotFound(JoinPath(dir, SentimentFile)))
    ensures JoinPath(dir, MovementFile) in models && JoinPath(dir, SentimentFile) in models
            && JoinPath(dir, RelevanceFile) !in tables ==>
              r == Err(NotFound(JoinPath(dir, RelevanceFile)))
  {
    var m, s, t := JoinPath(dir, MovementFile), JoinPath(dir, SentimentFile), JoinPath(dir, RelevanceFile);
    if m !in models then Err(NotFound(m))
    else if s !in models then Err(NotFound(s))
    else if t !in tables then Err(NotFound(t))
    else Ok(Service(models[m], models[s], tables[t]))
  }

  lemma RenderSeventyTwo()
    ensures RenderAccuracy(72) == "0.72"
  {
    assert Padded(72, 2) == "72" by {
      assert Padded(7, 1) == "7";
    }
  }

  /** The movement model the service loads is the file the movement training
      script writes for its random forest at 0.72 accuracy. */
  lemma MovementFileIsTrainingOutput()
    ensures MovementFile == ModelFilename("Random Forest", 72)
  {
    RenderSeventyTwo();
    var m := MovementFile;
    assert m[..13] == "Random Forest";
    assert m[13..23] == "_accuracy_";
    assert m[23..27] == "0.72";
    assert m[27..] == ".joblib";
    assert m == m[..13] + m[13..23] + m[23..27] + m[27..];
  }

  /** `data.get('article', {}).get('text', '')`. */
  function ArticleText(data: Json): (r: Result<Json, string>)
    ensures !data.JObject? ==> r == Err(NoGetMessage(data))
    ensures data.JObject? && "article" in data.fields && !data.fields["article"].JObject? ==>
              r == Err(NoGetMessage(data.fields["article"]))
    ensures data.JObject? && "article" in data.fields && data.fields["article"].JObject?
            && "text" in data.fields["article"].fields ==>
              r == Ok(data.fields["article"].fields["text"])
    ensures r.Err? <==> !data.JObject? || ("article" in data.fields && !data.fields["article"].JObject?)
  {
    if !data.JObject? then Err(NoGetMessage(data))
    else
      var article := Get(data.fields, "article", JObject(map[]));
      if !article.JObject? then Err(NoGetMessage(article))
      else Ok(Get(article.fields, "text", JStr("")))
  }

  function NotFoundMessage(topic: string): string {
    "Model for topic \"" + topic + "\" not found"
  }

  /** `POST /predict_relevance`. The text is read before the topic; a topic
      that is not one of the map's string keys is reported by its `str()`. */
  function PredictRelevance(svc: Service, req: Request): Response {
    match req
    case Unreadable(m) => ErrorBody(m)
    case Body(data) =>
      match ArticleText(data)
      case Err(m) => ErrorBody(m)
      case Ok(text) =>
        var topic := Get(data.fields, "topic", JStr(""));
        if !Hashable(topic) then ErrorBody(UnhashableMessage(topic))
        else if !topic.JStr? || topic.s !in svc.relevance then ErrorBody(NotFoundMessage(PyStr(topic)))
        else
          match svc.relevance[topic.s](text)
          case Raised(m) => ErrorBody(m)
          case Predicted(v) => RelevanceBody(v)
  }

  /** `POST /predict_sentiment`. */
  function PredictSentiment(svc: Service, req: Request): Response {
    match req
    case Unreadable(m) => ErrorBody(m)
    case Body(data) =>
      match ArticleText(data)
      case Err(m) => ErrorBody(m)
      case Ok(text) =>
        match svc.sentiment(text)
        case Raised(m) => ErrorBody(m)
        case Predicted(v) => SentimentBody(v)
  }

  /** `POST /predict_movement`. */
  function PredictMovement(svc: Service, req: Request): Response {
    match req
    case Unreadable(m) => ErrorBody(m)
    case Body(data) =>
      match ArticleText(data)
      case Err(m) => ErrorBody(m)
      case Ok(text) =>
        match svc.movement(text)
        case Raised(m) => ErrorBody(m)
        case Predicted(v) => MovementBody(if v == 1.0 then "up" else "down")
  }

  /** Missing fields default to the empty string: a body without `article`,
      or with an `article` object without `text`, reads the text "", and a
      body without `topic` asks for the model of topic "". */
  lemma MissingFieldsDefault(svc: Service, fields: map<string, Json>)
    ensures "article" !in fields ==> ArticleText(JObject(fields)) == Ok(JStr(""))
    ensures "article" in fields && fields["article"].JObject? && "text" !in fields["article"].fields ==>
              ArticleText(JObject(fields)) == Ok(JStr(""))
    ensures "article" !in fields && "topic" !in fields && "" !in svc.relevance ==>
              PredictRelevance(svc, Body(JObject(fields))) == ErrorBody("Model for topic \"\" not found")
  {
  }

  /** An unknown string topic gets exactly the not-found payload, whatever
      the models are: no model is asked. */
  lemma UnknownTopic(svc1: Service, svc2: Service, data: Json, topic: string)
    requires data.JObject? && Get(data.fields, "topic", JStr("")) == JStr(topic)
    requires ArticleText(data).Ok?
    requires topic !in svc1.relevance && svc1.relevance.Keys == svc2.relevance.Keys
    ensures PredictRelevance(svc1, Body(data)) == ErrorBody(NotFoundMessage(topic))
    ensures PredictRelevance(svc2, Body(data)) == PredictRelevance(svc1, Body(data))
  {
  }

  /** A known topic answers with that topic's model's output on the text, as
      a number under `prediction`, or its error under `Error`. */
  lemma KnownTopic(svc: Service, data: Json, topic: string, v: real)
    requires data.JObject? && Get(data.fields, "topic", JStr("")) == JStr(topic)
    requires ArticleText(data).Ok? && topic in svc.relevance
    ensures PredictRelevance(svc, Body(data)) == RelevanceBody(v) <==>
              svc.relevance[topic](ArticleText(data).value) == Predicted(v)
    ensures PredictRelevance(svc, Body(data)).ErrorBody? <==>
              svc.relevance[topic](ArticleText(data).value).Raised?
  {
  }

  /** The movement answer is "up" exactly when the model says 1, "down" for
      any other number, and nothing else under `prediction`. */
  lemma MovementUpDown(svc: Service, data: Json)
    requires ArticleText(data).Ok?
    ensures PredictMovement(svc, Body(data)) == MovementBody("up") <==>
              svc.movement(ArticleText(data).value) == Predicted(1.0)
    ensures PredictMovement(svc, Body(data)) == MovementBody("down") <==>
              svc.movement(ArticleText(data).value).Predicted?
                   && svc.movement(ArticleText(data).value).value != 1.0
    ensures PredictMovement(svc, Body(data)).MovementBody? ==>
              PredictMovement(svc, Body(data)).direction in {"up", "down"}
  {
  }

  /** The sentiment answer carries the model's number under `sentiment`. */
  lemma SentimentCarriesPrediction(svc: Service, data: Json, v: real)
    requires ArticleText(data).Ok?
    ensures PredictSentiment(svc, Body(data)) == SentimentBody(v) <==>
              svc.sentiment(ArticleText(data).value) == Predicted(v)
  {
  }

  /** Every failure reaches the client as an error payload carrying the
      exception's message: an unreadable body, a body or article that is
      not an object, and whatever a model raises. */
  lemma ErrorsBecomePayloads(svc: Service, req: Request)
    ensures req.Unreadable? ==>
              && PredictRelevance(svc, req) == ErrorBody(req.message)
              && PredictSentiment(svc, req) == ErrorBody(req.message)
              && PredictMovement(svc, req) == ErrorBody(req.message)
    ensures req.Body? && ArticleText(req.data).Err? ==>
              && PredictRelevance(svc, req) == ErrorBody(ArticleText(req.data).error)
              && PredictSentiment(svc, req) == ErrorBody(ArticleText(req.data).error)
              && PredictMovement(svc, req) == ErrorBody(ArticleText(req.data).error)
    ensures req.Body? && req.data.JObject? && "article" in req.data.fields
            && !req.data.fields["article"].JObject? ==>
              var e := ErrorBody(NoGetMessage(req.data.fields["article"]));
              && PredictRelevance(svc, req) == e && PredictSentiment(svc, req) == e && PredictMovement(svc, req) == e
    ensures req.Body? && ArticleText(req.data).Ok? && svc.movement(ArticleText(req.data).value).Raised? ==>
              PredictMovement(svc, req) == ErrorBody(svc.movement(ArticleText(req.data).value).message)
    ensures req.Body? && ArticleText(req.data).Ok? && svc.sentiment(ArticleText(req.data).value).Raised? ==>
              PredictSentiment(svc, req) == ErrorBody(svc.sentiment(ArticleText(req.data).value).message)
  {
  }

  /** A topic that is a list or an object cannot be looked up: the payload is
      Python's `unhashable type` error, even before any model is asked. */
  lemma UnhashableTopic(svc: Service, data: Json)
    requires data.JObject? && ArticleText(data).Ok?
    requires !Hashable(Get(data.fields, "topic", JStr("")))
    ensures PredictRelevance(svc, Body(data)) == ErrorBody(UnhashableMessage(Get(data.fields, "topic", JStr(""))))
  {
  }
}
