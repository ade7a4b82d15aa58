# Video-transcript tutor: a Dafny model

These Dafny modules model the deterministic core of a small retrieval-augmented question
answering tool. The tool works over transcripts of instructional videos:

- **Transcription.** Each `.mp4` video is transcribed. Every speech segment becomes a chunk
  record `{number, title, start, end, text}`, saved as `jsons/<name>.json`
  (mp4_to_json.py, create_chunks.py).
- **Ingestion.** The chunk files are read and each file's chunk texts are embedded in one
  batch. Every committed chunk gets a global `chunk_id` and its vector. The result is saved
  as a data frame (preprocess.py, read_chunks.py).
- **Answering.** A question is embedded and scored against every row. The five best rows,
  or three in read_chunks.py, are retrieved and handed to a text generator. When generation
  fails, a deterministic fallback answer lists the retrieved rows with `m:ss` time ranges.
  Two front ends do this: a web service, `/api/chat` and `/api/health` in app_minimal.py,
  and an interactive console loop in process_incoming.py.
- **Browser.** The page formats an answer into HTML (`formatMessage`) and gates sending on
  the input box and a loading flag (static/script.js).

Remote services become oracles that are passed in as parameters:

- the embedding service: `embed(texts)(k)` is attempt `k` (0-based), `None` when it raises;
- the chat completion: `generate(query)(rows)(k)`. The prompt depends only on the question
  and the retrieved rows;
- the speech-to-text model and `json.load`;
- the cosine similarity.

File-system facts are boolean inputs: does `jsons/` exist, is `embeddings.joblib` there. Time
values are whole seconds.

Modules and the source they follow:

| module | models |
|---|---|
| `Wrappers` | `Option` |
| `Text` | decimal printing and parsing of integers, `str.strip` / `trim`, `lower`, `endswith`, `replace`, `join`, `split` |
| `Retry` | the bounded retry loops of `create_embedding` and `inference` |
| `Transcripts` | mp4_to_json.py and create_chunks.py |
| `Ranking` | top-K selection, and `df.iloc` / `df.loc` |
| `Corpus` | rows with `chunk_id` and embedding, the `from_records` frame, the scores |
| `Ingestion` | preprocess.py and read_chunks.py |
| `Fallback` | both `create_fallback_response` functions and the time format |
| `Service` | app_minimal.py, including its module-global `df` as the class `App` |
| `Cli` | `main` of process_incoming.py |
| `Client` | static/script.js, with the page state as the class `ChatPage` |

Behaviour of the code worth knowing:

- **Ties.** numpy's `argsort` is not stable, so `argsort()[::-1]` returns equal scores in no
  promised order. No tie-break is modelled or proved.
- **Embedding failure during ingestion.** It aborts the whole preprocess.py run, because
  `SystemExit` escapes `except Exception`. It does not merely skip the file.
- **Chunk validation.** There is none. A chunk with `end < start` is committed like any other.
- **Vector shapes.** Corpus vectors of different lengths make `np.vstack` raise `ValueError`.
  A question vector whose length differs from the corpus's, or vectors of length 0, make
  scikit-learn's `check_pairwise_arrays` raise `ValueError`. In the web service that is a 500
  reply; in the console it ends the program with status 1.
- **Row lookup.** The console and read_chunks.py look rows up by label (`df.loc`), and
  `Ranking.LocIsILocOnRangeIndex` proves that this equals positional lookup on the frame that
  `from_records` builds. The web service uses `df.iloc`.

## Model

| member | source | states |
|---|---|---|
| Retry.FirstSuccess | app_minimal.py:36-50 | the attempt returned is the first one in the range that succeeds, every earlier attempt failed, and `None` means every attempt in the range failed |
| Retry.RetryOfMeaning | app_minimal.py:36-56 | with `max_retries <= 0` there is no attempt; the loop gives up iff `max_retries >= 1` and all `max_retries` attempts fail, reporting `max_retries` attempts; it returns value `v` from attempt `k` iff `k < max_retries`, attempt `k` gave `v` and all earlier attempts failed |
| Retry.CallWithRetry | process_incoming.py:18-41 | the `for attempt in range(max_retries)` loop (the same loop as app_minimal.py:34-84 and preprocess.py:19-41) returns the retry outcome above and sleeps once after every failed attempt except the last one |
| Text.Strip | app_minimal.py:167 | the result has no leading or trailing space, is empty iff the text is all spaces, and is otherwise the slice between the first and last non-space characters |
| Text.StripPadded | process_incoming.py:116 | stripping spaces from both sides of a word gives back exactly the word |
| Text.ParseIntOfIntToString | app_minimal.py:98 | `int(str(x)) == x` for every integer, negative ones included |
| Text.SplitJoin | app_minimal.py:108 | splitting `sep.join(parts)` on a one-character separator that no part contains gives the parts back |
| Text.ReplaceAllAbsent | mp4_to_json.py:49 | `replace` leaves a text without an occurrence of the pattern unchanged |
| Transcripts.VideoFilesMembers | mp4_to_json.py:24-25 | the `.mp4` filter keeps a name iff it is in the listing and ends with `.mp4` |
| Transcripts.VideoFilesAppend | create_chunks.py:13-14 | the filter keeps the listing's order: filtering a concatenation concatenates the filtered parts |
| Transcripts.ReplaceVideoSuffix | mp4_to_json.py:49 | for `base + ".mp4"`, where `base` holds no `.mp4`, replacing every `.mp4` changes only the suffix |
| Transcripts.VideoNames | mp4_to_json.py:49-63 | the title of `<base>.mp4` is `<base>` and its output path is `jsons/<base>.json` |
| Transcripts.ChunksOf | mp4_to_json.py:45-53 | one chunk per segment; chunk `i` has number `i+1`, the file's title (the same for every chunk), and the segment's start, end and text |
| Transcripts.BuildChunks | create_chunks.py:25-33 | the `enumerate(..., start=1)` append loop builds exactly those chunks |
| Transcripts.WrittenAllAppend | mp4_to_json.py:33-71 | processing a list of videos writes the files of its first part followed by those of the rest: each file is handled on its own |
| Transcripts.SkipFailedVideo | mp4_to_json.py:69-71 | a video that fails to transcribe or save adds no file, and the videos after it are processed as if it were absent |
| Transcripts.Mp4ToJsonMain | mp4_to_json.py:11-73 | exit 1 without `learning_videos` or without an `.mp4` file; otherwise the written files are those of every `.mp4` video that succeeded, in listing order, and the failures are reported in order |
| Transcripts.SucceedingPrefix | create_chunks.py:13-22 | the number of leading videos that transcribe: all of those succeed and the next one fails |
| Transcripts.CreateChunksScript | create_chunks.py:11-47 | the script crashes iff some `.mp4` video fails to transcribe, and the files written are those of the videos before the first failure |
| Transcripts.CrashPosition | create_chunks.py:13-22 | when the script stops at a failing entry, the videos done so far are exactly the prefix of the `.mp4` list before its first failure |
| Ranking.ArgMaxPos | app_minimal.py:133 | the position returned holds a candidate whose score no other candidate exceeds |
| Ranking.SelectTop | app_minimal.py:133 | `min(number of candidates, k)` distinct candidates with non-increasing scores, and no candidate left out scores above one taken |
| Ranking.TopK | app_minimal.py:132-133 | `argsort()[::-1][0:k]` has length `min(N, k)`, holds distinct indices in range with non-increasing scores, and no index left out scores above a selected one |
| Ranking.LocIsILocOnRangeIndex | process_incoming.py:142-144 | on a frame indexed `0 .. n-1`, `df.loc[keys]` never raises and selects the same rows as `df.iloc[keys]` |
| Corpus.StampExtends | preprocess.py:79-83 | appending entries stamped from the current count keeps `my_dicts[k].chunk_id == k` and adds exactly those entries in order |
| Corpus.CorpusOf | preprocess.py:95-100 | the frame from the committed entries has index `0 .. n-1`, one row per entry in order, and `chunk_id` equal to the position |
| Corpus.CorpusOfRows | read_chunks.py:35 | rows whose ids are their positions form exactly the frame `from_records` builds from them |
| Ingestion.CommitChunks | preprocess.py:79-83 | the inner loop appends chunk `i` with `embeddings[i]` and id `chunk_id + i`; it stops at the first chunk without a vector (`IndexError`), keeping what it appended; the counter advances once per appended chunk |
| Ingestion.PreprocessAllAppend | preprocess.py:63-93 | the entries of a listing are those of its first part followed by those of the rest (file order, then chunk order), and one aborted part aborts the whole |
| Ingestion.SkippedFileAddsNothing | preprocess.py:64-74 | an entry not ending in `.json`, an unreadable file or a file without `chunks` contributes nothing and consumes no id |
| Ingestion.ExhaustedEmbeddingAborts | preprocess.py:38-40 | a file whose embedding exhausts its retries aborts the whole run, whatever comes before or after it |
| Ingestion.FileGetsItsEmbeddings | preprocess.py:77-83 | a readable file whose single batch of chunk texts is embedded contributes chunk `i` with `embeddings[i]`, in chunk order, for every chunk that has a vector |
| Ingestion.Preprocess | preprocess.py:44-112 | exits with 1 unless `jsons/` exists, is non-empty, the run was not aborted and some chunk was collected; otherwise it saves the corpus frame of exactly the collected entries, with ids `0 .. n-1` |
| Ingestion.ReadChunksCrashSticks | read_chunks.py:22-32 | once a file has crashed the script, no later file can undo it |
| Ingestion.ReadChunksAskIsTopThree | read_chunks.py:35-48 | on the frame the script built, `df.loc[max_idx]` gives the three best rows by position, best first |
| Ingestion.ReadChunksScript | read_chunks.py:18-49 | the script prints iff every file is read and embedded completely and the question's lookup succeeds; what it prints is the texts of the looked-up rows of the corpus frame |
| Fallback.ParseFormatTime | app_minimal.py:98-99 | reading `f"{t//60}:{t%60:02d}"` back as minutes and two digits gives `t`, for every integer `t` |
| Fallback.FormatTimeInjective | process_incoming.py:84-85 | different times print differently |
| Fallback.DefaultsForMissingFields | app_minimal.py:92-95 | field by field, the row at position `i` shows its own value when present; a missing title becomes `Video {i+1}` (1-based, read back as `i+1`), missing times become 0, missing text becomes `No content available` |
| Fallback.BodyParts | app_minimal.py:91-104 | four parts per row |
| Fallback.Parts | app_minimal.py:88-106 | `response_parts` has `4n + 2` parts, the header first and the note last |
| Fallback.BodyPartsAt | app_minimal.py:101-104 | row `k` occupies body parts `4k .. 4k+3` |
| Fallback.PartsAt | app_minimal.py:101-104 | row `k` of the answer is its marked title, `   Time: a - b`, `   Content: text` and an empty part, in input order |
| Fallback.CreateFallbackResponse | app_minimal.py:86-108 | the append loop over the record dicts, joined with `"\n"`, builds the header, the four camera-marked parts per row with defaults filled in, and the note |
| Fallback.CreatePlainFallbackResponse | process_incoming.py:72-94 | the same answer over `df.iterrows()` without the camera mark |
| Fallback.FallbackLines | process_incoming.py:75-94 | when no field holds a line break, the answer has `4n + 3` lines: the header, an empty line (the header's own `\n`), the four lines of every row in order, and the note |
| Fallback.SplitFramedJoin | app_minimal.py:89-108 | a header ending in `\n` followed by single-line parts splits back into the header, an empty line and the parts |
| Fallback.ExampleTimeRange | app_minimal.py:98-102 | a row from 125 s to 167 s shows `2:05 - 2:47` |
| Service.TopRows | app_minimal.py:132-134 | the rows passed on are `min(n, 5)` |
| Service.RecordsKeepFields | app_minimal.py:152 | `to_dict('records')` of the retrieved rows has every field, so the fallback shows the rows' own fields and no default |
| Service.AnswerIsGeneratedOrFallback | app_minimal.py:146-152 | when all three generation attempts fail, the answer is the fallback for the same rows and nothing is raised; otherwise the answer is the first generated text |
| Service.ProcessQueryRaises | app_minimal.py:110-130 | `Embeddings not loaded` is raised iff `df is None`, before any embedding call; `process_query` raises iff there is no corpus, the question's embedding fails or is empty, or the vectors do not fit (a length-0 question vector included); exhausted embedding retries raise the retry failure |
| Service.AnswerUsesTopRows | app_minimal.py:120-154 | once the question has scores, the answer is generated from, or falls back to, `df.iloc` of the `min(n, 5)` best rows, best first, with no unselected row scoring above a selected one |
| Service.ChatRoutes | app_minimal.py:165-179 | the route answers 400 `Message cannot be empty` iff the `message` is absent or all whitespace; an unreadable body or message is a 500 |
| Service.ChatBadBody | app_minimal.py:165-179 | the app replies 500 for the body iff the body or its `message` cannot be read: `process_query` never fails that way |
| Service.ChatPassesStrippedMessage | app_minimal.py:167-175 | a non-blank message reaches `process_query` stripped, with no space at either end; its answer is the 200 reply and its exception the 500 reply |
| Service.BlankMessageNeedsNoService | app_minimal.py:169-170 | a blank message gets the 400 reply whatever `process_query` would do, so no service is asked |
| Service.App.constructor | app_minimal.py:21 | no corpus at import time |
| Service.App.LoadEmbeddings | app_minimal.py:23-32 | raises when `embeddings.joblib` is missing, leaving `df` as it was; otherwise the snapshot becomes `df`; afterwards `/api/health` reports the corpus loaded iff the file existed or it was loaded before |
| Service.App.ProcessQuery | app_minimal.py:110-154 | the step-by-step `process_query` computes the outcome characterised by the lemmas above |
| Service.App.Chat | app_minimal.py:162-179 | the `chat` route computes the reply characterised by the route lemmas above |
| Service.Startup | app_minimal.py:186-194 | the app starts with the snapshot loaded, or exits with status 1 when the file is missing; `/api/health` then reports `healthy`, with `embeddings_loaded` exactly when the file existed |
| Cli.SessionTrace | process_incoming.py:114-187 | turn `j` is what line `j` made the loop print; the session stops at the first Ctrl-C, exit word or failure, and with status 1 (`EOFError`) when the input runs out |
| Cli.AnswerQuestion | process_incoming.py:126-171 | embedding, scoring, `df.loc` of the five best and generation with plain fallback give the step the gating model describes |
| Cli.RunTutor | process_incoming.py:96-194 | `main` exits 1 without `embeddings.joblib`; otherwise the `while True` loop produces exactly the session over the inputs |
| Cli.ExitWordEndsSession | process_incoming.py:116-120 | a line whose stripped lower-case form is `bye`, `exit`, `quit` or `goodbye` ends the session with no further turn, whatever follows |
| Cli.ExitWordExample | process_incoming.py:116-118 | `" Bye\n"` is an exit word: case and surrounding whitespace are ignored |
| Cli.EmptyLineReprompts | process_incoming.py:122-124 | an all-whitespace line prints the reminder without asking any service, and the loop goes on with the next line |
| Cli.GenerationFailureFallsBack | process_incoming.py:142-171 | when generation gives up, the session goes on and the answer is the plain fallback over the rows `df.loc` selected, which on the corpus frame are the five best rows by position |
| Cli.ReplyFallsBack | process_incoming.py:165-171 | generation failing on every attempt is answered with the plain fallback, not a program exit |
| Cli.EmbeddingFailureExits | process_incoming.py:38-40 | the embedding service failing every attempt for a question ends the program with status 1 |
| Cli.StopWithoutFailure | process_incoming.py:116-120 | a line stops the loop with status 0 iff it is an exit word |
| Cli.ExitCodeZero | process_incoming.py:189-194 | the program exits 0 iff the session stopped at Ctrl-C or at an exit word, and 1 otherwise |
| Client.BreakLinesJoinsLines | static/script.js:119 | `replace(/\n/g, '<br>')` is the text's lines joined with `<br>` |
| Client.BreakLinesRemovesNewlines | static/script.js:119 | no `\n` is left after the first pass |
| Client.BreakLinesUnchanged | static/script.js:119 | a text without `\n` is unchanged by the first pass |
| Client.TimestampLength | static/script.js:122 | the match of `\d+:\d+` at the start of a text is digits `:` digits, the longest such prefix, not followed by a digit; there is none iff no prefix is a timestamp |
| Client.WrapTimestampsLeftmost | static/script.js:122 | the leftmost timestamp is wrapped whole in the timestamp span, and it is maximal; the text before it is copied and scanning resumes after it |
| Client.TitleLength | static/script.js:125 | the match of `📹\s*[^<]+` at the start of a text is the camera and at least one more character, none of them `<`, running to just before the next `<` or the end; there is none iff no prefix is such a run |
| Client.WrapTitlesLeftmost | static/script.js:125 | the leftmost title is wrapped in the strong tag up to the next `<`, so it never reaches into a `<br>` or a timestamp span |
| Client.WrapAllLeftmost | static/script.js:122-125 | a global wrapping `replace` copies the text before the leftmost match, wraps the match and continues after it |
| Client.WrapAllUnchanged | static/script.js:122-125 | a text in which no match starts is unchanged |
| Client.FormatMessageHasNoNewline | static/script.js:117-128 | the formatted message contains no `\n` |
| Client.FormatMessageUnchanged | static/script.js:117-128 | a one-line message without a timestamp or a camera is returned as it is |
| Client.ChatPage.constructor | static/script.js:2 | the page starts not loading, with no message |
| Client.ChatPage.OnInput | static/script.js:29-31 | the send button is disabled exactly when the trimmed input is empty or a request is in flight |
| Client.ChatPage.SendMessage | static/script.js:35-45 | nothing changes when the trimmed input is empty or a request is in flight; otherwise the trimmed message is shown and posted, the box is cleared, and the button is disabled with `isLoading` set |
| Client.ChatPage.Complete | static/script.js:60-80 | the reply, or the error text on any failure, is shown, and `isLoading` is always cleared with the button enabled |
| Client.ChatPage.AskQuestion | static/script.js:146-149 | an example question is put in the box and sent with the same gating |
| Client.Exchange | static/script.js:35-80 | from an idle page with text in the box, one exchange adds the user's trimmed message and one reply, leaves the box empty and the page idle with the button enabled |

## Left out

- Remote calls: the embedding, chat-completion, HTTP (`requests.post`) and Whisper calls
  appear only through their outcomes. The inputs are oracles, and no request is built.
- Model and environment configuration: `load_dotenv`, environment variables, model names,
  dimensions, `max_tokens` and `temperature`. preprocess.py (preprocess.py:25-28) asks for
  embeddings without `dimensions`, and app_minimal.py:44 and process_incoming.py:28 ask for
  1024. If the model's default length is not 1024, every question therefore reaches the
  `Scores` length-mismatch path: a 500 reply, or exit status 1. Vector lengths are inputs
  here, so the model covers that outcome but not its cause.
- Floating point:
  - L2 normalisation with the `1e-8` epsilon, and `cosine_similarity`. The similarity is an
    input and scores are `real`s.
  - `int()` truncation of float seconds. Times are whole seconds.
- Ranking.TopK: no order is promised among equal scores, because numpy's default sort is not
  stable. Among equal maxima the model takes the lowest index. No proved property of the
  selection depends on that choice. Which of several tied rows takes the last place, and the
  order of tied rows in the fallback text, do depend on it.
- Prompt text and serialisation, not modelled:
  - the prompt text, and its `to_json(orient="records")` rendering of the rows;
  - `json.dump` of the chunk files;
  - `joblib` save and load;
  - pandas `DataFrame` internals.
- Data frame columns: a frame is its index labels and its rows. Columns other than the
  chunk fields, `chunk_id` and `embedding` are not modelled.
- Ingestion.CommitChunks: the chunk dicts are changed in place in the source, so the same
  dict objects land in `my_dicts`. The model builds new row values, so aliasing between
  `content['chunks']` and `my_dicts` is not captured.
- Every `Exception` raised for a file before its embedding call is folded into `Unreadable`.
  That covers a `JSONDecodeError` or `IOError` from reading the file, and also the `KeyError`
  that the list of texts (preprocess.py:78) raises for a chunk without `text`.
- Chunks with missing fields: a `Chunk` always has its title, start, end and text. In the
  source, a chunk dict with `text` but without `title`, `start` or `end` is committed as it
  is (preprocess.py:78-83). `DataFrame.from_records` (preprocess.py:100) then fills the gap
  with NaN, and the model cannot express that. What follows is not modelled:
  - app_minimal.py:92-94: `row.get` returns the NaN, so the `Video {i+1}` default is never
    used. The title shows as `nan`, or `int(NaN)` raises inside the `except` handler, which
    gives a 500 reply;
  - process_incoming.py:78-79: the same `int()` raises, and the program ends with status 1
    instead of printing the fallback.
- Console output, not modelled:
  - the `print` logging, the banner, and the "saved" messages;
  - the copies written to `prompt.txt` and `response.txt`, together with their `IOError`
    warnings.
- Text of library exceptions in the web service's 500 body: `str(e)` is given only where the
  source fixes it (`Service.ErrorText`).
- Cli.Session: a `KeyboardInterrupt` is modelled only as an input event at the `input()`
  prompt. An interrupt in the middle of a service call is not modelled. Ending the input is
  modelled as `EOFError`, which gives status 1.
- Sleeping: `time.sleep(2)` is counted (`Retry.SleepsOf`) but not performed, and no clock
  is modelled.
- Flask: routing, the `/` page (`render_template`), JSON encoding of the replies, and
  `app.run`. A reply is its status and its body value.
- Start-up failures, not modelled:
  - a failure to load the Whisper model, and `os.makedirs`;
  - `os.listdir` ordering. A listing is given as a sequence;
  - a missing `learning_videos/` in create_chunks.py (create_chunks.py:11) and a missing
    `jsons/` in read_chunks.py (read_chunks.py:18). Both scripts list the directory without
    checking it, so the listing raises. `CreateChunksScript` and `ReadChunksScript` take the
    listing as given. mp4_to_json.py and preprocess.py check the directory, and their models
    do too.
- An interrupt during mp4_to_json.py or preprocess.py (`sys.exit(0)`).
- Browser side, not modelled:
  - the DOM, `fetch` and `async`;
  - the typing indicator, focus, scrolling and the message time stamp;
  - removing the welcome message, and the injected CSS;
  - the Enter-key handler, which only calls `sendMessage`, and the loading overlay timer.
- Text.Lower: ASCII case folding only. Python's `str.lower` also folds other letters, but
  only two non-ASCII characters lower-case to something holding an ASCII letter. The Kelvin
  sign becomes `k`, and none of the exit words contains `k`. U+0130 becomes `i` followed by
  U+0307, and no exit word contains U+0307. The exit-word test is therefore exact.
- Client.FormatMessage: characters are whole code points. JavaScript matches the camera
  emoji as a surrogate pair in both the pattern and the text, and `[^<]` consumes a surrogate
  half at a time. Neither half is `<`, so every match ends at the same place.
