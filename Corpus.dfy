/**
 * The corpus data frame shared by ingestion and querying: one row per chunk with its
 * `chunk_id` and `embedding` columns, and the pandas index labels of the frame.
 */
module Corpus {
  import opened Wrappers
  import opened Ranking
  import opened Transcripts

  /** An embedding vector. Its values are never computed on in this model. */
  type Vector = seq<real>

  /** `embed(texts)(k)`: attempt `k` (0-based) of the embedding request for `texts`, `None`
      when it raises. */
  type Embedder = seq<string> -> nat -> Option<seq<Vector>>

  /** `generate(query)(rows)(k)`: attempt `k` of the chat completion for the prompt built from
      the question and the selected rows (the prompt depends on nothing else). */
  type Generator = string -> seq<Row> -> nat -> Option<string>

  /** The similarity of a row's vector to the question's (`cosine_similarity` after
      normalisation). */
  type Similarity = (Vector, Vector) -> real

  /** A chunk with its embedding, before a `chunk_id` is stamped on it. */
  datatype Embedded = Embedded(chunk: Chunk, embedding: Vector)

  /** A row of the frame: the chunk's columns plus `chunk_id` and `embedding`. */
  datatype Row = Row(chunk: Chunk, chunkId: int, embedding: Vector)

  /** A data frame: index labels and rows, one label per row. */
  datatype Frame = Frame(labels: seq<int>, rows: seq<Row>) {
    predicate WellFormed()
    {
      |labels| == |rows|
    }
  }

  /** The rows without their `chunk_id`. */
  function Entries(rows: seq<Row>): (r: seq<Embedded>)
    ensures |r| == |rows|
    ensures forall k :: 0 <= k < |rows| ==> r[k] == Embedded(rows[k].chunk, rows[k].embedding)
  {
    seq(|rows|, k requires 0 <= k < |rows| => Embedded(rows[k].chunk, rows[k].embedding))
  }

  /** Every row's `chunk_id` is its position. */
  predicate PositionalIds(rows: seq<Row>)
  {
    forall k :: 0 <= k < |rows| ==> rows[k].chunkId == k
  }

  /** `f` is the frame `DataFrame.from_records` builds from the committed chunks `entries`:
      index `0 .. n-1`, entries in order, `chunk_id` equal to the position. */
  predicate IsCorpusOf(f: Frame, entries: seq<Embedded>)
  {
    f.labels == RangeIndex(|f.rows|) && Entries(f.rows) == entries && PositionalIds(f.rows)
  }

  /** Rows stamped with consecutive ids from `base`. */
  function Stamp(entries: seq<Embedded>, base: int): (r: seq<Row>)
    ensures |r| == |entries|
    ensures forall k :: 0 <= k < |entries| ==> r[k] == Row(entries[k].chunk, base + k, entries[k].embedding)
  {
    seq(|entries|, k requires 0 <= k < |entries| => Row(entries[k].chunk, base + k, entries[k].embedding))
  }

  /** Appending rows stamped from the current count keeps `chunk_id == position` and adds
      exactly those entries. */
  lemma StampExtends(rows: seq<Row>, entries: seq<Embedded>)
    requires PositionalIds(rows)
    ensures PositionalIds(rows + Stamp(entries, |rows|))
    ensures Entries(rows + Stamp(entries, |rows|)) == Entries(rows) + entries
  {
    var r := rows + Stamp(entries, |rows|);
    assert forall k :: |rows| <= k < |r| ==> r[k] == Stamp(entries, |rows|)[k - |rows|];
  }

  /** The frame `DataFrame.from_records(my_dicts)` builds from the committed entries. */
  function CorpusOf(entries: seq<Embedded>): (f: Frame)
    ensures f.WellFormed() && IsCorpusOf(f, entries)
  {
    var rows := Stamp(entries, 0);
    assert Entries(rows) == entries;
    Frame(RangeIndex(|entries|), rows)
  }

  /** Rows whose ids are their positions are the corpus of their entries. */
  lemma CorpusOfRows(rows: seq<Row>)
    requires PositionalIds(rows)
    ensures CorpusOf(Entries(rows)) == Frame(RangeIndex(|rows|), rows)
  {
    assert Stamp(Entries(rows), 0) == rows;
  }

  /** `np.vstack(df['embedding'])` and `cosine_similarity` against the query vector: one score
      per row, or `None` for the `ValueError` raised on an empty frame (`vstack` of nothing),
      on corpus vectors of different lengths (`vstack`), on a question vector whose length
      differs from the corpus's, or on vectors of length 0 (scikit-learn's
      `check_pairwise_arrays` asks for at least one feature). The similarity itself is an
      input. */
  function Scores(rows: seq<Row>, q: Vector, sim: (Vector, Vector) -> real): (r: Option<seq<real>>)
    ensures r.Some? <==> rows != [] && |q| > 0 && forall k :: 0 <= k < |rows| ==> |rows[k].embedding| == |q|
    ensures r.Some? ==> |r.value| == |rows| && forall k :: 0 <= k < |rows| ==> r.value[k] == sim(rows[k].embedding, q)
  {
    if rows == [] || |q| == 0 || exists k :: 0 <= k < |rows| && |rows[k].embedding| != |q| then None
    else Some(seq(|rows|, k requires 0 <= k < |rows| => sim(rows[k].embedding, q)))
  }
}
