/**
 * The web service of app_minimal.py: the loaded corpus (`df`, a module global), answering one
 * question (`process_query`), the `/api/chat` and `/api/health` routes and start-up. The
 * embedding and chat-completion services are oracles indexed by attempt, like the retry loop
 * expects; the cosine similarity is an input.
 */
module Service {
  import opened Wrappers
  import opened Text
  import opened Retry
  import opened Ranking
  import opened Corpus
  import opened Fallback

  /** `top_results = 5`. */
  const TopResults: nat := 5

  /** Why `process_query` or the route raised. */
  datatype Failure =
    | NotLoaded       // `raise Exception("Embeddings not loaded")`
    | RetriesFailed   // `create_embedding` raised after its last attempt
    | NoEmbedding     // `create_embedding` returned `None`; `[0]` raises `TypeError`
    | EmptyReply      // the service sent no vector back; `[0]` raises `IndexError`
    | ShapeMismatch   // `np.vstack` or `cosine_similarity` raised `ValueError`
    | BadBody         // `request.get_json()`, `.get` or `.strip` raised

  /** `str(e)` where the source fixes it; library exceptions carry their own text. */
  function ErrorText(f: Failure): Option<string>
  {
    match f
    case NotLoaded => Some("Embeddings not loaded")
    case RetriesFailed => Some("All retry attempts failed. Please check your OpenAI API key and try again.")
    case _ => None
  }

  const EmptyMessage := "Message cannot be empty"

  datatype QueryOutcome = Answered(response: string) | Raised(failure: Failure)

  /** `df.iloc[similarities.argsort()[::-1][0:top_results]]`. */
  function TopRows(rows: seq<Row>, scores: seq<real>): (r: seq<Row>)
    requires |scores| == |rows|
    ensures |r| == Min(|rows|, TopResults)
  {
    ILoc(rows, TopK(scores, TopResults))
  }

  /** `new_df.to_dict('records')`: every column is present, so nothing falls back to a default. */
  function Records(rows: seq<Row>): (r: seq<Record>)
    ensures |r| == |rows|
  {
    seq(|rows|, i requires 0 <= i < |rows| =>
      Record(Some(rows[i].chunk.title), Some(rows[i].chunk.start), Some(rows[i].chunk.end), Some(rows[i].chunk.text)))
  }

  /** The fallback built from retrieved rows shows exactly their own fields. */
  lemma RecordsKeepFields(rows: seq<Row>)
    ensures WithDefaultsAll(Records(rows)) == EntriesOf(rows)
  {
  }

  function FallbackText(query: string, rows: seq<Row>): string
  {
    Join(Parts(VideoMark, query, ShowAll(WithDefaultsAll(Records(rows)))), "\n")
  }

  /** The `try: inference(prompt) ... except: create_fallback_response(...)` block. When no
      attempt succeeds `inference` raises, and with no attempt at all it returns `None`, whose
      `["response"]` raises too; both end in the fallback. */
  function Answer(query: string, rows: seq<Row>, generate: Generator): string
  {
    match RetryOf(MaxRetries, generate(query)(rows))
    case Succeeded(text, _) => text
    case _ => FallbackText(query, rows)
  }

  /** `process_query` on the corpus `df` (`None` until `load_embeddings` ran). */
  function ProcessQueryOf(df: Option<Frame>, query: string, embed: Embedder, sim: Similarity,
                          generate: Generator): QueryOutcome
  {
    match df
    case None => Raised(NotLoaded)
    case Some(f) =>
      match RetryOf(MaxRetries, embed([query]))
      case NoAttempts => Raised(NoEmbedding)
      case Exhausted(_) => Raised(RetriesFailed)
      case Succeeded(vectors, _) =>
        if vectors == [] then Raised(EmptyReply)
        else match Scores(f.rows, vectors[0], sim)
          case None => Raised(ShapeMismatch)
          case Some(scores) => Answered(Answer(query, TopRows(f.rows, scores), generate))
  }

  /** Generation failures never reach the caller: the answer is the first generated text, or
      the fallback for the same rows exactly when all three attempts fail. */
  lemma AnswerIsGeneratedOrFallback(query: string, rows: seq<Row>, generate: Generator)
    ensures (forall i :: 0 <= i < MaxRetries ==> generate(query)(rows)(i).None?) ==>
              Answer(query, rows, generate) == FallbackText(query, rows)
    ensures forall k: nat, t ::
              k < MaxRetries && generate(query)(rows)(k) == Some(t)
              && (forall i :: 0 <= i < k ==> generate(query)(rows)(i).None?)
              ==> Answer(query, rows, generate) == t
  {
    RetryOfMeaning(MaxRetries, generate(query)(rows));
  }

  /** `process_query` raises exactly when the corpus is missing, the embedding of the question
      fails or the vectors do not fit; once it has scores it always answers, from the five
      best-scoring rows. */
  lemma ProcessQueryRaises(df: Option<Frame>, query: string, embed: Embedder, sim: Similarity,
                           generate: Generator)
    ensures ProcessQueryOf(df, query, embed, sim, generate) == Raised(NotLoaded) <==> df.None?
    ensures ProcessQueryOf(df, query, embed, sim, generate).Raised? <==>
              df.None?
              || !RetryOf(MaxRetries, embed([query])).Succeeded?
              || RetryOf(MaxRetries, embed([query])).value == []
              || Scores(df.value.rows, RetryOf(MaxRetries, embed([query])).value[0], sim).None?
    ensures df.Some? && (forall i :: 0 <= i < MaxRetries ==> embed([query])(i).None?) ==>
              ProcessQueryOf(df, query, embed, sim, generate) == Raised(RetriesFailed)
    ensures df.Some? && RetryOf(MaxRetries, embed([query])).Succeeded?
            && RetryOf(MaxRetries, embed([query])).value != []
            && RetryOf(MaxRetries, embed([query])).value[0] == [] ==>
              ProcessQueryOf(df, query, embed, sim, generate) == Raised(ShapeMismatch)
  {
    RetryOfMeaning(MaxRetries, embed([query]));
  }

  /** Once the question has scores, the rows behind the answer are the `min(n, 5)` best rows,
      best first, and no row left out scores above a row taken. */
  lemma AnswerUsesTopRows(f: Frame, query: string, embed: Embedder, sim: Similarity, generate: Generator,
                          vectors: seq<Vector>, k: nat)
    requires RetryOf(MaxRetries, embed([query])) == Succeeded(vectors, k) && vectors != []
    requires Scores(f.rows, vectors[0], sim).Some?
    ensures var scores := Scores(f.rows, vectors[0], sim).value;
            var top := TopK(scores, TopResults);
            ProcessQueryOf(Some(f), query, embed, sim, generate) == Answered(Answer(query, ILoc(f.rows, top), generate))
            && |top| == Min(|f.rows|, TopResults)
            && (forall i, j :: 0 <= i < j < |top| ==> scores[top[j]] <= scores[top[i]])
            && (forall r, i :: 0 <= r < |f.rows| && r !in top && 0 <= i < |top| ==> scores[r] <= scores[top[i]])
  {
    var scores := Scores(f.rows, vectors[0], sim).value;
    var top := TopK(scores, TopResults);
    ProcessQueryAnswers(f, query, embed, sim, generate, vectors, k, scores);
    assert NonIncreasing(scores, top);
  }

  lemma ProcessQueryAnswers(f: Frame, query: string, embed: Embedder, sim: Similarity, generate: Generator,
                            vectors: seq<Vector>, k: nat, scores: seq<real>)
    requires RetryOf(MaxRetries, embed([query])) == Succeeded(vectors, k) && vectors != []
    requires Scores(f.rows, vectors[0], sim) == Some(scores)
    ensures ProcessQueryOf(Some(f), query, embed, sim, generate) == Answered(Answer(query, TopRows(f.rows, scores), generate))
  {
  }

  /** A request body: not JSON at all, JSON that is not an object (`null` included), or an
      object whose `message` key is absent, a string, or some other JSON value. */
  datatype MessageValue = Text(s: string) | NotText
  datatype Body = Malformed | NotAnObject | Object(message: Option<MessageValue>)

  /** The JSON reply and its status: 200 with `response`, 400 or 500 with `error`. */
  datatype Reply = Ok(response: string) | BadRequest(error: string) | ServerError(failure: Failure)

  function Status(r: Reply): int
  {
    match r
    case Ok(_) => 200
    case BadRequest(_) => 400
    case ServerError(_) => 500
  }

  /** `data.get('message', '')`, or `None` when the body or the value raises first. */
  function MessageOf(body: Body): Option<string>
  {
    match body
    case Object(None) => Some("")
    case Object(Some(Text(s))) => Some(s)
    case _ => None
  }

  /** The `/api/chat` route, given what `process_query` does with a message. */
  function Route(body: Body, process: string -> QueryOutcome): Reply
  {
    match MessageOf(body)
    case None => ServerError(BadBody)
    case Some(raw) =>
      var message := Strip(raw, PyIsSpace);
      if message == [] then BadRequest(EmptyMessage)
      else match process(message)
        case Answered(r) => Ok(r)
        case Raised(f) => ServerError(f)
  }

  /** The `/api/chat` route of the app whose corpus is `df`. */
  function ChatOf(df: Option<Frame>, body: Body, embed: Embedder, sim: Similarity, generate: Generator): Reply
  {
    Route(body, message => ProcessQueryOf(df, message, embed, sim, generate))
  }

  /** The route answers 400 exactly for an absent or all-whitespace message, and 500 with
      `BadBody` when the body or its `message` cannot be read. */
  lemma ChatRoutes(body: Body, process: string -> QueryOutcome)
    ensures Route(body, process).BadRequest? <==>
              body.Object? && (body.message.None? || (body.message.value.Text? && Strip(body.message.value.s, PyIsSpace) == []))
    ensures Route(body, process).BadRequest? ==> Route(body, process) == BadRequest(EmptyMessage)
    ensures MessageOf(body).None? ==> Route(body, process) == ServerError(BadBody)
  {
    assert Strip("", PyIsSpace) == [];
  }

  /** `process_query` itself never fails on reading the request. */
  lemma ProcessQueryReadsNoBody(df: Option<Frame>, query: string, embed: Embedder, sim: Similarity,
                                generate: Generator)
    ensures ProcessQueryOf(df, query, embed, sim, generate) != Raised(BadBody)
  {
  }

  /** The app's route fails with `BadBody` exactly when the body or its `message` cannot be
      read. */
  lemma ChatBadBody(df: Option<Frame>, body: Body, embed: Embedder, sim: Similarity, generate: Generator)
    ensures ChatOf(df, body, embed, sim, generate) == ServerError(BadBody) <==> MessageOf(body).None?
  {
    if MessageOf(body).Some? {
      ProcessQueryReadsNoBody(df, Strip(MessageOf(body).value, PyIsSpace), embed, sim, generate);
    }
  }

  /** A non-blank message reaches `process_query` stripped of surrounding whitespace; its
      answer is the 200 reply and its exception the 500 one. */
  lemma ChatPassesStrippedMessage(raw: string, process: string -> QueryOutcome)
    requires Strip(raw, PyIsSpace) != []
    ensures var q := process(Strip(raw, PyIsSpace));
            Route(Object(Some(Text(raw))), process) == (if q.Answered? then Ok(q.response) else ServerError(q.failure))
    ensures var message := Strip(raw, PyIsSpace);
            !PyIsSpace(message[0]) && !PyIsSpace(message[|message| - 1])
  {
  }

  /** A blank message is refused without `process_query` being asked: the reply is the same
      whatever it would do. */
  lemma BlankMessageNeedsNoService(body: Body, process1: string -> QueryOutcome, process2: string -> QueryOutcome)
    requires MessageOf(body).Some? && Strip(MessageOf(body).value, PyIsSpace) == []
    ensures Route(body, process1) == Route(body, process2) == BadRequest(EmptyMessage)
  {
  }

  datatype HealthReport = HealthReport(status: string, embeddingsLoaded: bool)

  /** The Flask application with its module-level corpus. */
  class App {
    var df: Option<Frame>

    /** `df = None` at import time. */
    constructor ()
      ensures df == None
    {
      df := None;
    }

    /** `load_embeddings`: `FileNotFoundError` when `embeddings.joblib` is missing, otherwise
        the saved frame becomes the corpus. */
    method LoadEmbeddings(fileExists: bool, snapshot: Frame) returns (loaded: bool)
      modifies this
      ensures loaded == fileExists
      ensures df == if fileExists then Some(snapshot) else old(df)
      ensures Health().embeddingsLoaded <==> fileExists || old(df).Some?
    {
      if !fileExists {
        return false;
      }
      df := Some(snapshot);
      loaded := true;
    }

    /** `/api/health`. */
    function Health(): (h: HealthReport)
      reads this
      ensures h.status == "healthy" && (h.embeddingsLoaded <==> df.Some?)
    {
      HealthReport("healthy", df.Some?)
    }

    /** `process_query`, step by step. */
    method ProcessQuery(query: string, embed: Embedder, sim: Similarity, generate: Generator)
      returns (out: QueryOutcome)
      ensures out == ProcessQueryOf(df, query, embed, sim, generate)
    {
      if df.None? {
        return Raised(NotLoaded);
      }
      var f := df.value;
      var embedded, embedSleeps := CallWithRetry(MaxRetries, embed([query]));
      if embedded.NoAttempts? {
        return Raised(NoEmbedding);
      }
      if embedded.Exhausted? {
        return Raised(RetriesFailed);
      }
      if embedded.value == [] {
        return Raised(EmptyReply);
      }
      var similarities := Scores(f.rows, embedded.value[0], sim);
      if similarities.None? {
        return Raised(ShapeMismatch);
      }
      var newRows := TopRows(f.rows, similarities.value);
      var generated, genSleeps := CallWithRetry(MaxRetries, generate(query)(newRows));
      if generated.Succeeded? {
        out := Answered(generated.value);
      } else {
        var text := CreateFallbackResponse(Records(newRows), query);
        out := Answered(text);
      }
    }

    /** `chat`, the `/api/chat` route. */
    method Chat(body: Body, embed: Embedder, sim: Similarity, generate: Generator) returns (reply: Reply)
      ensures reply == ChatOf(df, body, embed, sim, generate)
    {
      var raw := MessageOf(body);
      if raw.None? {
        return ServerError(BadBody);
      }
      var message := Strip(raw.value, PyIsSpace);
      if message == [] {
        return BadRequest(EmptyMessage);
      }
      var outcome := ProcessQuery(message, embed, sim, generate);
      match outcome
      case Answered(r) => reply := Ok(r);
      case Raised(f) => reply := ServerError(f);
    }
  }

  /** The `__main__` block: load the corpus, or exit with status 1 when that raises. */
  method Startup(fileExists: bool, snapshot: Frame) returns (app: App, exitCode: Option<int>)
    ensures fresh(app)
    ensures exitCode == if fileExists then None else Some(1)
    ensures app.df == if fileExists then Some(snapshot) else None
    ensures app.Health() == HealthReport("healthy", fileExists)
  {
    app := new App();
    var loaded := app.LoadEmbeddings(fileExists, snapshot);
    exitCode := if loaded then None else Some(1);
  }
}
