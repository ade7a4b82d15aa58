/**
 * The interactive tutor of process_incoming.py: load the corpus, then read questions until an
 * exit word, answering each from the five best-matching rows. Input is a sequence of events
 * (a line, or Ctrl-C); running out of events is `input()` raising `EOFError`. Services are
 * oracles as in the web service; the console banner and the `prompt.txt`/`response.txt`
 * copies are not modelled.
 */
module Cli {
  import opened Wrappers
  import opened Text
  import opened Retry
  import opened Ranking
  import opened Corpus
  import opened Fallback

  /** `['bye', 'exit', 'quit', 'goodbye']`. */
  const ExitWords: seq<string> := ["bye", "exit", "quit", "goodbye"]

  /** `top_results = 5`. */
  const TopResults: nat := 5

  datatype Input = Line(text: string) | Interrupt

  /** What one turn of the loop prints: the reminder for an empty question, or an answer. */
  datatype Turn = Reprompted | Replied(response: string)

  /** How the program ends: an exit word (`break`), Ctrl-C (`sys.exit(0)`), or status 1 from
      `sys.exit(1)` in a retry loop or from `except Exception` around `main`. */
  datatype End = SaidGoodbye | Cancelled | Failed

  datatype Outcome = Outcome(turns: seq<Turn>, end: End)

  function ExitCode(e: End): int
  {
    if e == Failed then 1 else 0
  }

  /** The fallback of process_incoming.py: no emoji before the titles. */
  function PlainFallbackText(query: string, rows: seq<Row>): string
  {
    Join(Parts(NoMark, query, ShowAll(EntriesOf(rows))), "\n")
  }

  datatype StepResult = Stop(end: End) | Continue(turn: Turn)

  /** One pass of `while True` for the line `line`: the exit words and the empty-line check,
      then the question. */
  function Step(f: Frame, line: string, embed: Embedder, sim: Similarity, generate: Generator): StepResult
    requires f.WellFormed()
  {
    var query := Strip(line, PyIsSpace);
    if Lower(query) in ExitWords then Stop(SaidGoodbye)
    else if query == [] then Continue(Reprompted)
    else Ask(f, query, embed, sim, generate)
  }

  /** Answering a question that passed the gating. */
  function Ask(f: Frame, query: string, embed: Embedder, sim: Similarity, generate: Generator): StepResult
    requires f.WellFormed()
  {
    match RetryOf(MaxRetries, embed([query]))
    // exhaustion is `sys.exit(1)`; `None[0]` of a loop with no attempt is a `TypeError`
    case Exhausted(_) => Stop(Failed)
    case NoAttempts => Stop(Failed)
    case Succeeded(vectors, _) =>
      if vectors == [] then Stop(Failed)  // `IndexError`
      else match Scores(f.rows, vectors[0], sim)
        case None => Stop(Failed)  // `ValueError`
        case Some(scores) =>
          match Loc(f.labels, f.rows, TopK(scores, TopResults))
          case None => Stop(Failed)  // `KeyError` from `df.loc`
          case Some(newRows) => Reply(query, newRows, generate)
  }

  /** The `try: inference(prompt) ... except SystemExit:` block. */
  function Reply(query: string, newRows: seq<Row>, generate: Generator): StepResult
  {
    match RetryOf(MaxRetries, generate(query)(newRows))
    case Succeeded(text, _) => Continue(Replied(text))
    // `sys.exit(1)` in `inference` is caught as `SystemExit`
    case Exhausted(_) => Continue(Replied(PlainFallbackText(query, newRows)))
    // `None["response"]` is a `TypeError`, which `except SystemExit` lets through
    case NoAttempts => Stop(Failed)
  }

  /** The loop over the input events, front to back, given what one line does. */
  function Session(step: string -> StepResult, inputs: seq<Input>): (o: Outcome)
    ensures |o.turns| <= |inputs|
    decreases |inputs|
  {
    if inputs == [] then Outcome([], Failed)
    else if inputs[0].Interrupt? then Outcome([], Cancelled)
    else match step(inputs[0].text)
      case Stop(e) => Outcome([], e)
      case Continue(t) =>
        var rest := Session(step, inputs[1..]);
        Outcome([t] + rest.turns, rest.end)
  }

  /** What one line does in the tutor over the frame `f`. */
  function StepOf(f: Frame, embed: Embedder, sim: Similarity, generate: Generator): string -> StepResult
    requires f.WellFormed()
  {
    line => Step(f, line, embed, sim, generate)
  }

  /** The session of the tutor over the frame `f`. */
  function SessionOf(f: Frame, inputs: seq<Input>, embed: Embedder, sim: Similarity, generate: Generator): Outcome
    requires f.WellFormed()
  {
    Session(StepOf(f, embed, sim, generate), inputs)
  }

  /** `main`: exit with status 1 when `embeddings.joblib` is missing, otherwise the loop. */
  function TutorOf(snapshotExists: bool, snapshot: Frame, inputs: seq<Input>, embed: Embedder,
                   sim: Similarity, generate: Generator): Outcome
    requires snapshot.WellFormed()
  {
    if !snapshotExists then Outcome([], Failed) else SessionOf(snapshot, inputs, embed, sim, generate)
  }

  /** The session from input `i` on, one step unfolded. */
  lemma SessionAt(step: string -> StepResult, inputs: seq<Input>, i: nat)
    requires i < |inputs|
    ensures var o := Session(step, inputs[i..]);
            if inputs[i].Interrupt? then o == Outcome([], Cancelled)
            else match step(inputs[i].text)
              case Stop(e) => o == Outcome([], e)
              case Continue(t) =>
                var r := Session(step, inputs[i + 1..]);
                o == Outcome([t] + r.turns, r.end)
  {
    assert inputs[i..][0] == inputs[i] && inputs[i..][1..] == inputs[i + 1..];
  }

  /** A step that continues moves the loop to the next input. */
  lemma ContinueSession(step: string -> StepResult, inputs: seq<Input>, i: nat, turns: seq<Turn>, t: Turn)
    requires i < |inputs| && inputs[i].Line? && step(inputs[i].text) == Continue(t)
    requires var rest := Session(step, inputs[i..]);
             Session(step, inputs) == Outcome(turns + rest.turns, rest.end)
    ensures var rest := Session(step, inputs[i + 1..]);
            Session(step, inputs) == Outcome(turns + [t] + rest.turns, rest.end)
  {
    SessionAt(step, inputs, i);
    var next := Session(step, inputs[i + 1..]);
    assert turns + ([t] + next.turns) == turns + [t] + next.turns;
  }

  /** The body of the loop for a question that passed the gating: embed it, rank the rows,
      generate the answer or fall back to the plain one. */
  method AnswerQuestion(df: Frame, incomingQuery: string, embed: Embedder, sim: Similarity,
                        generate: Generator) returns (step: StepResult)
    requires df.WellFormed()
    ensures step == Ask(df, incomingQuery, embed, sim, generate)
  {
    var embedded, embedSleeps := CallWithRetry(MaxRetries, embed([incomingQuery]));
    if !embedded.Succeeded? || embedded.value == [] {
      return Stop(Failed);
    }
    var similarities := Scores(df.rows, embedded.value[0], sim);
    if similarities.None? {
      return Stop(Failed);
    }
    var newRows := Loc(df.labels, df.rows, TopK(similarities.value, TopResults));
    if newRows.None? {
      return Stop(Failed);
    }
    var generated, genSleeps := CallWithRetry(MaxRetries, generate(incomingQuery)(newRows.value));
    if generated.Succeeded? {
      step := Continue(Replied(generated.value));
    } else if generated.Exhausted? {
      var response := CreatePlainFallbackResponse(EntriesOf(newRows.value), incomingQuery);
      step := Continue(Replied(response));
    } else {
      step := Stop(Failed);
    }
  }

  /** `main` with its `while True` loop. */
  method RunTutor(snapshotExists: bool, snapshot: Frame, inputs: seq<Input>, embed: Embedder,
                  sim: Similarity, generate: Generator) returns (out: Outcome)
    requires snapshot.WellFormed()
    ensures out == TutorOf(snapshotExists, snapshot, inputs, embed, sim, generate)
  {
    if !snapshotExists {
      return Outcome([], Failed);
    }
    var df := snapshot;
    ghost var step := StepOf(df, embed, sim, generate);
    var turns: seq<Turn> := [];
    var i := 0;
    assert inputs[0..] == inputs;
    while i < |inputs|
      invariant 0 <= i <= |inputs|
      invariant var rest := Session(step, inputs[i..]);
                Session(step, inputs) == Outcome(turns + rest.turns, rest.end)
    {
      SessionAt(step, inputs, i);
      if inputs[i].Interrupt? {
        return Outcome(turns, Cancelled);
      }
      var incomingQuery := Strip(inputs[i].text, PyIsSpace);
      if Lower(incomingQuery) in ExitWords {
        return Outcome(turns, SaidGoodbye);
      }
      if incomingQuery == [] {
        ContinueSession(step, inputs, i, turns, Reprompted);
        turns := turns + [Reprompted];
        i := i + 1;
        continue;
      }
      var answer := AnswerQuestion(df, incomingQuery, embed, sim, generate);
      assert step(inputs[i].text) == answer;
      if answer.Stop? {
        return Outcome(turns, answer.end);
      }
      ContinueSession(step, inputs, i, turns, answer.turn);
      turns := turns + [answer.turn];
      i := i + 1;
    }
    return Outcome(turns, Failed);
  }

  /** A line whose stripped, lower-cased form is an exit word ends the session there, whatever
      follows. */
  lemma ExitWordEndsSession(f: Frame, line: string, rest: seq<Input>, embed: Embedder, sim: Similarity,
                            generate: Generator)
    requires f.WellFormed() && Lower(Strip(line, PyIsSpace)) in ExitWords
    ensures SessionOf(f, [Line(line)] + rest, embed, sim, generate) == Outcome([], SaidGoodbye)
  {
    assert ([Line(line)] + rest)[0] == Line(line);
  }

  /** The match ignores case and surrounding whitespace. */
  lemma ExitWordExample()
    ensures Lower(Strip(" Bye\n", PyIsSpace)) in ExitWords
  {
    StripByeExample();
    LowerByeExample();
  }

  lemma StripByeExample()
    ensures Strip(" Bye\n", PyIsSpace) == "Bye"
  {
    StripPadded(" ", "Bye", "\n", PyIsSpace);
    assert " " + "Bye" + "\n" == " Bye\n";
  }

  lemma LowerByeExample()
    ensures Lower("Bye") == "bye"
  {
    assert LowerChar('B') == 'b';
  }

  /** An empty or all-whitespace line prints the reminder and reads the next line, asking no
      service: the rest of the session is what the following lines make of it. */
  lemma EmptyLineReprompts(f: Frame, line: string, rest: seq<Input>, embed: Embedder, sim: Similarity,
                           generate: Generator)
    requires f.WellFormed() && Strip(line, PyIsSpace) == []
    ensures forall e: Embedder, g: Generator :: Step(f, line, e, sim, g) == Continue(Reprompted)
    ensures var r := SessionOf(f, rest, embed, sim, generate);
            SessionOf(f, [Line(line)] + rest, embed, sim, generate) == Outcome([Reprompted] + r.turns, r.end)
  {
    assert Lower([]) == [];
    assert ([Line(line)] + rest)[1..] == rest;
  }

  /** Generation giving up does not end the session: the answer is the plain fallback over the
      rows `df.loc` selected, and on a corpus those are the five best rows by position. */
  lemma GenerationFailureFallsBack(f: Frame, entries: seq<Embedded>, line: string, embed: Embedder,
                                   sim: Similarity, generate: Generator, vectors: seq<Vector>, k: nat)
    requires IsCorpusOf(f, entries) && f.WellFormed()
    requires var query := Strip(line, PyIsSpace);
             query != [] && Lower(query) !in ExitWords
             && RetryOf(MaxRetries, embed([query])) == Succeeded(vectors, k) && vectors != []
             && Scores(f.rows, vectors[0], sim).Some?
    requires var query := Strip(line, PyIsSpace);
             var rows := ILoc(f.rows, TopK(Scores(f.rows, vectors[0], sim).value, TopResults));
             forall i :: 0 <= i < MaxRetries ==> generate(query)(rows)(i).None?
    ensures var query := Strip(line, PyIsSpace);
            var rows := ILoc(f.rows, TopK(Scores(f.rows, vectors[0], sim).value, TopResults));
            Step(f, line, embed, sim, generate) == Continue(Replied(PlainFallbackText(query, rows)))
  {
    var query := Strip(line, PyIsSpace);
    var scores := Scores(f.rows, vectors[0], sim).value;
    var keys := TopK(scores, TopResults);
    assert Loc(f.labels, f.rows, keys) == Some(ILoc(f.rows, keys)) by {
      assert f.labels == RangeIndex(|f.rows|);
      LocIsILocOnRangeIndex(f.rows, keys);
    }
    AskReplies(f, query, embed, sim, generate, vectors, k, scores, ILoc(f.rows, keys));
    ReplyFallsBack(query, ILoc(f.rows, keys), generate);
  }

  /** A question whose embedding and lookup succeed goes on to generation over the rows looked
      up. */
  lemma AskReplies(f: Frame, query: string, embed: Embedder, sim: Similarity, generate: Generator,
                   vectors: seq<Vector>, k: nat, scores: seq<real>, rows: seq<Row>)
    requires f.WellFormed()
    requires RetryOf(MaxRetries, embed([query])) == Succeeded(vectors, k) && vectors != []
    requires Scores(f.rows, vectors[0], sim) == Some(scores)
    requires Loc(f.labels, f.rows, TopK(scores, TopResults)) == Some(rows)
    ensures Ask(f, query, embed, sim, generate) == Reply(query, rows, generate)
  {
  }

  /** Generation giving up on every attempt is answered with the plain fallback. */
  lemma ReplyFallsBack(query: string, rows: seq<Row>, generate: Generator)
    requires forall i :: 0 <= i < MaxRetries ==> generate(query)(rows)(i).None?
    ensures Reply(query, rows, generate) == Continue(Replied(PlainFallbackText(query, rows)))
  {
    RetryOfMeaning(MaxRetries, generate(query)(rows));
  }

  /** The embedding service failing every attempt ends the program with status 1. */
  lemma EmbeddingFailureExits(f: Frame, line: string, embed: Embedder, sim: Similarity, generate: Generator)
    requires f.WellFormed()
    requires var query := Strip(line, PyIsSpace);
             query != [] && Lower(query) !in ExitWords
             && forall i :: 0 <= i < MaxRetries ==> embed([query])(i).None?
    ensures Step(f, line, embed, sim, generate) == Stop(Failed)
    ensures ExitCode(Failed) == 1
  {
    RetryOfMeaning(MaxRetries, embed([Strip(line, PyIsSpace)]));
  }

  /** The whole session, stated outright: turn `j` is what line `j` made the step print, and
      the session stopped at the first event that did not continue it (an exit word, Ctrl-C or
      a failure), or at the end of the input with status 1. */
  lemma {:induction false} SessionTrace(step: string -> StepResult, inputs: seq<Input>)
    ensures var o := Session(step, inputs);
            forall j :: 0 <= j < |o.turns| ==> inputs[j].Line? && step(inputs[j].text) == Continue(o.turns[j])
    ensures var o := Session(step, inputs);
            |o.turns| == |inputs| ==> o.end == Failed
    ensures var o := Session(step, inputs);
            |o.turns| < |inputs| ==>
              if inputs[|o.turns|].Interrupt? then o.end == Cancelled
              else step(inputs[|o.turns|].text) == Stop(o.end)
    decreases |inputs|
  {
    if inputs != [] && inputs[0].Line? && step(inputs[0].text).Continue? {
      var tail := inputs[1..];
      SessionTrace(step, tail);
      var r := Session(step, tail);
      var o := Session(step, inputs);
      assert o.turns == [step(inputs[0].text).turn] + r.turns;
      assert forall j :: 1 <= j < |inputs| ==> inputs[j] == tail[j - 1];
    }
  }

  /** A line stops the tutor with status 0 only when it is an exit word. */
  lemma StopWithoutFailure(f: Frame, line: string, embed: Embedder, sim: Similarity, generate: Generator)
    requires f.WellFormed()
    ensures (exists e :: e != Failed && Step(f, line, embed, sim, generate) == Stop(e))
            <==> Lower(Strip(line, PyIsSpace)) in ExitWords
  {
    var query := Strip(line, PyIsSpace);
    if Lower(query) !in ExitWords && query != [] {
      var a := Ask(f, query, embed, sim, generate);
      assert a.Stop? ==> a.end == Failed;
    } else if Lower(query) in ExitWords {
      assert Step(f, line, embed, sim, generate) == Stop(SaidGoodbye);
    }
  }

  /** Status 0 exactly when the session stopped at an exit word or at Ctrl-C. */
  lemma ExitCodeZero(f: Frame, inputs: seq<Input>, embed: Embedder, sim: Similarity, generate: Generator)
    requires f.WellFormed()
    ensures var o := SessionOf(f, inputs, embed, sim, generate);
            ExitCode(o.end) == 0 <==>
              |o.turns| < |inputs|
              && (inputs[|o.turns|].Interrupt? || Lower(Strip(inputs[|o.turns|].text, PyIsSpace)) in ExitWords)
  {
    var step := StepOf(f, embed, sim, generate);
    SessionTrace(step, inputs);
    var o := Session(step, inputs);
    if |o.turns| < |inputs| && inputs[|o.turns|].Line? {
      StopWithoutFailure(f, inputs[|o.turns|].text, embed, sim, generate);
    }
  }
}
