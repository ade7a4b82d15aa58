/**
 * Building the corpus from the chunk files in `jsons/`: the loop in `main` of preprocess.py
 * and the top-level script read_chunks.py. File contents and the embedding service are
 * oracles: `read(name)` is what `json.load` makes of `jsons/<name>`, and `embed(texts)(k)` is
 * what attempt `k` of the embedding request for `texts` returns (`None` when it raises).
 */
module Ingestion {
  import opened Wrappers
  import opened Text
  import opened Retry
  import opened Transcripts
  import opened Ranking
  import opened Corpus

  /** What reading one entry of `jsons/` gives: `Unreadable` is a `JSONDecodeError`, an
      `IOError` or any other `Exception` raised before the embedding call (a chunk without
      `text`, say); `WithoutChunks` a document with no `chunks` key. */
  datatype JsonContent = Unreadable | WithoutChunks | WithChunks(chunks: seq<Chunk>)

  const JsonSuffix := ".json"

  /** `[c['text'] for c in content['chunks']]`. */
  function Texts(chunks: seq<Chunk>): (r: seq<string>)
    ensures |r| == |chunks| && forall i :: 0 <= i < |chunks| ==> r[i] == chunks[i].text
  {
    seq(|chunks|, i requires 0 <= i < |chunks| => chunks[i].text)
  }

  /** Chunk `i` with `embeddings[i]`, for every chunk that has one. */
  function Attach(chunks: seq<Chunk>, vectors: seq<Vector>): (r: seq<Embedded>)
    ensures |r| == Min(|chunks|, |vectors|)
    ensures forall i :: 0 <= i < |r| ==> r[i] == Embedded(chunks[i], vectors[i])
  {
    seq(Min(|chunks|, |vectors|), i requires 0 <= i < Min(|chunks|, |vectors|) => Embedded(chunks[i], vectors[i]))
  }

  /** The inner loop of both ingestion scripts:
      `for i, chunk in enumerate(chunks): chunk['chunk_id'] = chunk_id;
       chunk['embedding'] = embeddings[i]; chunk_id += 1; my_dicts.append(chunk)`.
      It stops at the first chunk without an embedding (`IndexError`), with the rows already
      appended left in place; `complete` tells whether it ran to the end. */
  method CommitChunks(myDicts: seq<Row>, chunkId: int, chunks: seq<Chunk>, vectors: seq<Vector>)
    returns (dicts: seq<Row>, nextId: int, complete: bool)
    ensures complete <==> |chunks| <= |vectors|
    ensures dicts == myDicts + Stamp(Attach(chunks, vectors), chunkId)
    ensures nextId == chunkId + Min(|chunks|, |vectors|)
  {
    dicts, nextId := myDicts, chunkId;
    var i := 0;
    while i < |chunks|
      invariant 0 <= i <= |chunks| && i <= |vectors|
      invariant dicts == myDicts + Stamp(Attach(chunks[..i], vectors), chunkId)
      invariant nextId == chunkId + i
    {
      if i >= |vectors| {
        assert chunks[..i] == chunks[..Min(|chunks|, |vectors|)];
        assert Attach(chunks[..i], vectors) == Attach(chunks, vectors);
        return dicts, nextId, false;
      }
      var row := Row(chunks[i], nextId, vectors[i]);
      assert Stamp(Attach(chunks[..i + 1], vectors), chunkId)
             == Stamp(Attach(chunks[..i], vectors), chunkId) + [row];
      dicts := dicts + [row];
      nextId := nextId + 1;
      i := i + 1;
    }
    assert chunks[..i] == chunks;
    assert Attach(chunks[..i], vectors) == Attach(chunks, vectors);
    complete := true;
  }

  /** What one entry of `jsons/` contributes in preprocess.py. */
  datatype FileStep = Abort | Adds(entries: seq<Embedded>)

  function PreprocessStep(name: string, read: string -> JsonContent,
                          embed: seq<string> -> nat -> Option<seq<Vector>>): FileStep
  {
    if !EndsWith(name, JsonSuffix) then Adds([])
    else match read(name)
      case Unreadable => Adds([])
      case WithoutChunks => Adds([])
      case WithChunks(cs) =>
        match RetryOf(MaxRetries, embed(Texts(cs)))
        case Succeeded(vs, _) => Adds(Attach(cs, vs))
        // `sys.exit(1)` raises `SystemExit`, which `except Exception` does not catch
        case Exhausted(_) => Abort
        // `create_embedding` returned `None`; indexing it raises `TypeError`, caught per file
        case NoAttempts => Adds([])
  }

  /** The run so far followed by one more entry of the listing. */
  function Extend(acc: Option<seq<Embedded>>, step: FileStep): Option<seq<Embedded>>
  {
    match acc
    case None => None
    case Some(x) =>
      match step
      case Abort => None
      case Adds(e) => Some(x + e)
  }

  /** Two runs one after the other: both entries in order, unless one of them was aborted. */
  function Both(x: Option<seq<Embedded>>, y: Option<seq<Embedded>>): Option<seq<Embedded>>
  {
    if x.Some? && y.Some? then Some(x.value + y.value) else None
  }

  /** The entries preprocess.py commits for the listing `names`, in order; `None` when the
      embedding service gave up on some file and the run was aborted. */
  function PreprocessAll(names: seq<string>, read: string -> JsonContent,
                         embed: seq<string> -> nat -> Option<seq<Vector>>): Option<seq<Embedded>>
  {
    if names == [] then Some([])
    else Extend(PreprocessAll(names[..|names| - 1], read, embed), PreprocessStep(names[|names| - 1], read, embed))
  }

  lemma PreprocessAllSnoc(names: seq<string>, n: string, read: string -> JsonContent,
                          embed: seq<string> -> nat -> Option<seq<Vector>>)
    ensures PreprocessAll(names + [n], read, embed) == Extend(PreprocessAll(names, read, embed), PreprocessStep(n, read, embed))
  {
    assert (names + [n])[..|names|] == names;
  }

  lemma ExtendBoth(x: Option<seq<Embedded>>, y: Option<seq<Embedded>>, step: FileStep)
    ensures Extend(Both(x, y), step) == Both(x, Extend(y, step))
  {
    if x.Some? && y.Some? && step.Adds? {
      assert x.value + (y.value + step.entries) == (x.value + y.value) + step.entries;
    }
  }

  /** File order then chunk order: the entries of a listing are those of its first part
      followed by those of the rest, and an aborted run stays aborted. */
  lemma {:induction false} PreprocessAllAppend(a: seq<string>, b: seq<string>, read: string -> JsonContent,
                                               embed: seq<string> -> nat -> Option<seq<Vector>>)
    ensures PreprocessAll(a + b, read, embed) == Both(PreprocessAll(a, read, embed), PreprocessAll(b, read, embed))
    decreases |b|
  {
    if b == [] {
      assert a + b == a;
      if PreprocessAll(a, read, embed).Some? {
        assert PreprocessAll(a, read, embed).value + [] == PreprocessAll(a, read, embed).value;
      }
    } else {
      var n := b[|b| - 1];
      var b' := b[..|b| - 1];
      assert a + b == (a + b') + [n];
      assert b == b' + [n];
      PreprocessAllSnoc(a + b', n, read, embed);
      PreprocessAllSnoc(b', n, read, embed);
      PreprocessAllAppend(a, b', read, embed);
      ExtendBoth(PreprocessAll(a, read, embed), PreprocessAll(b', read, embed), PreprocessStep(n, read, embed));
    }
  }

  /** Entries not ending in `.json`, unreadable files and files without `chunks` contribute no
      chunk and consume no id. */
  lemma SkippedFileAddsNothing(a: seq<string>, n: string, b: seq<string>, read: string -> JsonContent,
                               embed: seq<string> -> nat -> Option<seq<Vector>>)
    requires !EndsWith(n, JsonSuffix) || read(n).Unreadable? || read(n).WithoutChunks?
    ensures PreprocessAll(a + [n] + b, read, embed) == PreprocessAll(a + b, read, embed)
  {
    PreprocessAllAppend(a + [n], b, read, embed);
    PreprocessAllAppend(a, b, read, embed);
    PreprocessAllSnoc(a, n, read, embed);
    assert PreprocessStep(n, read, embed) == Adds([]);
    if PreprocessAll(a, read, embed).Some? {
      var x := PreprocessAll(a, read, embed).value;
      assert x + [] == x;
    }
    assert PreprocessAll(a + [n], read, embed) == PreprocessAll(a, read, embed);
  }

  /** A file whose embedding request exhausts its retries aborts the whole run. */
  lemma ExhaustedEmbeddingAborts(a: seq<string>, n: string, b: seq<string>, read: string -> JsonContent,
                                 embed: seq<string> -> nat -> Option<seq<Vector>>)
    requires EndsWith(n, JsonSuffix) && read(n).WithChunks?
    requires RetryOf(MaxRetries, embed(Texts(read(n).chunks))).Exhausted?
    ensures PreprocessAll(a + [n] + b, read, embed) == None
  {
    PreprocessAllAppend(a + [n], b, read, embed);
    PreprocessAllSnoc(a, n, read, embed);
  }

  /** A readable file whose embeddings arrive contributes chunk `i` with `embeddings[i]`. */
  lemma FileGetsItsEmbeddings(n: string, read: string -> JsonContent,
                              embed: seq<string> -> nat -> Option<seq<Vector>>)
    requires EndsWith(n, JsonSuffix) && read(n).WithChunks?
    requires RetryOf(MaxRetries, embed(Texts(read(n).chunks))).Succeeded?
    ensures var cs := read(n).chunks;
            var vs := RetryOf(MaxRetries, embed(Texts(cs))).value;
            PreprocessStep(n, read, embed) == Adds(Attach(cs, vs))
            && |PreprocessStep(n, read, embed).entries| == Min(|cs|, |vs|)
            && forall i :: 0 <= i < Min(|cs|, |vs|) ==>
                 PreprocessStep(n, read, embed).entries[i] == Embedded(cs[i], vs[i])
  {
  }

  datatype IngestOutcome = Saved(frame: Frame) | Failed(code: int)

  /** `main` of preprocess.py. It exits with code 1 when `jsons/` is missing or empty, when the
      embedding service gives up, or when no chunk was collected; otherwise it saves the frame
      of the collected entries, whose `chunk_id`s are their positions. */
  method Preprocess(jsonsExists: bool, listing: seq<string>, read: string -> JsonContent,
                    embed: seq<string> -> nat -> Option<seq<Vector>>)
    returns (out: IngestOutcome)
    ensures out.Failed? ==> out.code == 1
    ensures out.Saved? <==> jsonsExists && listing != [] && PreprocessAll(listing, read, embed).Some?
                            && PreprocessAll(listing, read, embed).value != []
    ensures out.Saved? ==> out.frame == CorpusOf(PreprocessAll(listing, read, embed).value)
  {
    if !jsonsExists || listing == [] {
      return Failed(1);
    }
    var myDicts: seq<Row> := [];
    var chunkId := 0;
    var j := 0;
    while j < |listing|
      invariant 0 <= j <= |listing|
      invariant PreprocessAll(listing[..j], read, embed) == Some(Entries(myDicts))
      invariant PositionalIds(myDicts) && chunkId == |myDicts|
    {
      var name := listing[j];
      assert listing[..j + 1] == listing[..j] + [name];
      PreprocessAllSnoc(listing[..j], name, read, embed);
      assert Entries(myDicts) + [] == Entries(myDicts);
      if !EndsWith(name, JsonSuffix) {
        j := j + 1;
        continue;
      }
      match read(name) {
        case Unreadable =>
        case WithoutChunks =>
        case WithChunks(cs) =>
          var reply, sleeps := CallWithRetry(MaxRetries, embed(Texts(cs)));
          match reply {
            case Exhausted(_) =>
              PreprocessAllAppend(listing[..j + 1], listing[j + 1..], read, embed);
              assert listing[..j + 1] + listing[j + 1..] == listing;
              return Failed(1);
            case NoAttempts =>
            case Succeeded(vs, _) =>
              StampExtends(myDicts, Attach(cs, vs));
              var complete;
              myDicts, chunkId, complete := CommitChunks(myDicts, chunkId, cs, vs);
          }
      }
      j := j + 1;
    }
    assert listing[..j] == listing;
    if myDicts == [] {
      return Failed(1);
    }
    CorpusOfRows(myDicts);
    out := Saved(Frame(RangeIndex(|myDicts|), myDicts));
  }

  /** One file in read_chunks.py, which has no error handling: `None` is a crash of the
      script (a file that is not JSON, a missing `chunks` key, a failed request, or fewer
      embeddings than chunks). */
  function ReadChunksStep(name: string, read: string -> JsonContent,
                          embed: seq<string> -> Option<seq<Vector>>): Option<seq<Embedded>>
  {
    match read(name)
    case WithChunks(cs) =>
      (match embed(Texts(cs))
       case Some(vs) => if |cs| <= |vs| then Some(Attach(cs, vs)) else None
       case None => None)
    case _ => None
  }

  /** The entries read_chunks.py collects from every entry of the listing, unfiltered. */
  function ReadChunksAll(names: seq<string>, read: string -> JsonContent,
                         embed: seq<string> -> Option<seq<Vector>>): Option<seq<Embedded>>
  {
    if names == [] then Some([])
    else match ReadChunksAll(names[..|names| - 1], read, embed)
      case None => None
      case Some(acc) =>
        match ReadChunksStep(names[|names| - 1], read, embed)
        case None => None
        case Some(e) => Some(acc + e)
  }

  /** The question part of read_chunks.py: embed the question, score every row, take the
      three best and look them up by label with `df.loc`; `None` is a crash. */
  function ReadChunksAsk(f: Frame, question: string, embed: seq<string> -> Option<seq<Vector>>,
                         sim: (Vector, Vector) -> real): Option<seq<Row>>
    requires f.WellFormed()
  {
    match embed([question])
    case None => None
    case Some(qs) =>
      if qs == [] then None
      else match Scores(f.rows, qs[0], sim)
        case None => None
        case Some(scores) => Loc(f.labels, f.rows, TopK(scores, 3))
  }

  /** On the frame the script built, `df.loc[max_idx]` is positional: the rows printed are the
      three best-scoring rows, best first. */
  lemma ReadChunksAskIsTopThree(f: Frame, entries: seq<Embedded>, question: string,
                                embed: seq<string> -> Option<seq<Vector>>, sim: (Vector, Vector) -> real)
    requires IsCorpusOf(f, entries)
    requires embed([question]).Some? && embed([question]).value != []
    requires Scores(f.rows, embed([question]).value[0], sim).Some?
    ensures var scores := Scores(f.rows, embed([question]).value[0], sim).value;
            ReadChunksAsk(f, question, embed, sim) == Some(ILoc(f.rows, TopK(scores, 3)))
  {
    var scores := Scores(f.rows, embed([question]).value[0], sim).value;
    LocIsILocOnRangeIndex(f.rows, TopK(scores, 3));
  }

  datatype ScriptOutcome = Crashed | Printed(frame: Frame, texts: seq<string>)

  /** The whole of read_chunks.py: the per-file loop over every entry of `jsons/`, then one
      question and the texts of the three best rows. */
  method ReadChunksScript(listing: seq<string>, read: string -> JsonContent,
                          embed: seq<string> -> Option<seq<Vector>>, question: string,
                          sim: (Vector, Vector) -> real)
    returns (out: ScriptOutcome)
    ensures out.Printed? <==>
              (ReadChunksAll(listing, read, embed).Some?
               && ReadChunksAsk(CorpusOf(ReadChunksAll(listing, read, embed).value), question, embed, sim).Some?)
    ensures out.Printed? ==>
              out.frame == CorpusOf(ReadChunksAll(listing, read, embed).value)
              && var rows := ReadChunksAsk(out.frame, question, embed, sim).value;
                 |out.texts| == |rows| && forall i :: 0 <= i < |rows| ==> out.texts[i] == rows[i].chunk.text
  {
    var myDicts: seq<Row> := [];
    var chunkId := 0;
    var j := 0;
    while j < |listing|
      invariant 0 <= j <= |listing|
      invariant ReadChunksAll(listing[..j], read, embed) == Some(Entries(myDicts))
      invariant PositionalIds(myDicts) && chunkId == |myDicts|
    {
      var name := listing[j];
      assert listing[..j + 1] == listing[..j] + [name];
      assert listing[..j + 1][..j] == listing[..j];
      var content := read(name);
      if !content.WithChunks? {
        ReadChunksCrashSticks(listing, j + 1, read, embed);
        return Crashed;
      }
      var reply := embed(Texts(content.chunks));
      if reply.None? {
        ReadChunksCrashSticks(listing, j + 1, read, embed);
        return Crashed;
      }
      StampExtends(myDicts, Attach(content.chunks, reply.value));
      var complete;
      myDicts, chunkId, complete := CommitChunks(myDicts, chunkId, content.chunks, reply.value);
      if !complete {
        ReadChunksCrashSticks(listing, j + 1, read, embed);
        return Crashed;
      }
      j := j + 1;
    }
    assert listing[..j] == listing;
    CorpusOfRows(myDicts);
    var frame := Frame(RangeIndex(|myDicts|), myDicts);
    var rows := ReadChunksAsk(frame, question, embed, sim);
    if rows.None? {
      return Crashed;
    }
    var texts := seq(|rows.value|, i requires 0 <= i < |rows.value| => rows.value[i].chunk.text);
    out := Printed(frame, texts);
  }

  /** Once the script has crashed on some file, nothing after it changes that. */
  lemma {:induction false} ReadChunksCrashSticks(listing: seq<string>, j: nat, read: string -> JsonContent,
                                                 embed: seq<string> -> Option<seq<Vector>>)
    requires j <= |listing| && ReadChunksAll(listing[..j], read, embed).None?
    ensures ReadChunksAll(listing, read, embed).None?
    decreases |listing| - j
  {
    if j < |listing| {
      assert listing[..j + 1][..j] == listing[..j];
      ReadChunksCrashSticks(listing, j + 1, read, embed);
    } else {
      assert listing[..j] == listing;
    }
  }
}
