/**
 * The deterministic answer given when text generation fails (`create_fallback_response` in
 * app_minimal.py and in process_incoming.py): a header quoting the question, four lines per
 * retrieved row, and a closing note, joined with newlines. Times are printed as `m:ss`.
 */
module Fallback {
  import opened Wrappers
  import opened Text
  import opened Corpus

  /** `f"{t//60}:{t%60:02d}"`. Python's `//` and `%` floor, and with the positive divisor 60
      they agree with Dafny's `/` and `%`, so negative times are covered too. */
  function FormatTime(t: int): string
  {
    IntToString(t / 60) + ":" + Pad2(t % 60)
  }

  /** Reads `m:ss` back into seconds: minutes with an optional minus sign, then exactly two
      digits below 60. */
  function ParseTime(s: string): Option<int>
  {
    match IndexOf(s, ':')
    case None => None
    case Some(i) =>
      var minutes := ParseInt(s[..i]);
      var seconds := s[i + 1..];
      if minutes.Some? && |seconds| == 2 && AllDigits(seconds) && DigitsValue(seconds) < 60
      then Some(minutes.value * 60 + DigitsValue(seconds))
      else None
  }

  lemma NoColonInIntToString(x: int)
    ensures ':' !in IntToString(x) && '\n' !in IntToString(x)
  {
    var d := NatToString(if x < 0 then -x else x);
    assert forall i :: 0 <= i < |d| ==> IsDigit(d[i]);
    if x < 0 {
      assert IntToString(x) == "-" + d;
      assert forall i :: 0 <= i < |IntToString(x)| ==> IntToString(x)[i] == '-' || IsDigit(IntToString(x)[i]);
    }
  }

  /** Printing a time and reading it back gives the time: `m:ss` loses nothing. */
  lemma ParseFormatTime(t: int)
    ensures ParseTime(FormatTime(t)) == Some(t)
  {
    var m := IntToString(t / 60);
    var ss := Pad2(t % 60);
    var s := FormatTime(t);
    NoColonInIntToString(t / 60);
    Pad2Digits(t % 60);
    assert s[|m|] == ':';
    assert s[..|m|] == m;
    assert IndexOf(s, ':') == Some(|m|);
    assert s[|m| + 1..] == ss;
    ParseIntOfIntToString(t / 60);
  }

  /** Different times print differently. */
  lemma FormatTimeInjective(a: int, b: int)
    requires FormatTime(a) == FormatTime(b)
    ensures a == b
  {
    ParseFormatTime(a);
    ParseFormatTime(b);
  }

  lemma NoNewlineInFormatTime(t: int)
    ensures '\n' !in FormatTime(t)
  {
    NoColonInIntToString(t / 60);
    Pad2Digits(t % 60);
    var ss := Pad2(t % 60);
    assert forall i :: 0 <= i < |ss| ==> IsDigit(ss[i]);
  }

  /** The fields the answer shows of one retrieved row. */
  datatype Entry = Entry(title: string, start: int, end: int, text: string)

  /** The title, times and text of each row of a frame (`row['title']`, `int(row['start'])`,
      `int(row['end'])`, `row['text']`). */
  function EntriesOf(rows: seq<Row>): (r: seq<Entry>)
    ensures |r| == |rows|
    ensures forall i :: 0 <= i < |rows| ==>
              r[i] == Entry(rows[i].chunk.title, rows[i].chunk.start, rows[i].chunk.end, rows[i].chunk.text)
  {
    seq(|rows|, i requires 0 <= i < |rows| =>
      Entry(rows[i].chunk.title, rows[i].chunk.start, rows[i].chunk.end, rows[i].chunk.text))
  }

  /** One row as a dict (`new_df.to_dict('records')`), in which any field may be absent. */
  datatype Record = Record(title: Option<string>, start: Option<int>, end: Option<int>, text: Option<string>)

  /** `row.get('title', f'Video {i+1}')`, `int(row.get('start', 0))`, `int(row.get('end', 0))`,
      `row.get('text', 'No content available')` for the row at position `i`. */
  function WithDefaults(i: nat, r: Record): Entry
  {
    Entry(r.title.GetOr("Video " + IntToString(i + 1)), r.start.GetOr(0), r.end.GetOr(0),
          r.text.GetOr("No content available"))
  }

  function WithDefaultsAll(rows: seq<Record>): (r: seq<Entry>)
    ensures |r| == |rows| && forall i :: 0 <= i < |rows| ==> r[i] == WithDefaults(i, rows[i])
  {
    seq(|rows|, i requires 0 <= i < |rows| => WithDefaults(i, rows[i]))
  }

  /** Field by field, the row at position `i` shows its own value when present; a missing title
      becomes `Video n` with the 1-based position `n = i + 1`, missing times 0 and a missing
      text a placeholder. */
  lemma DefaultsForMissingFields(rows: seq<Record>, i: nat)
    requires i < |rows|
    ensures var e := WithDefaultsAll(rows)[i];
            (rows[i].title.Some? ==> e.title == rows[i].title.value)
            && (rows[i].title.None? ==> e.title == "Video " + IntToString(i + 1)
                                        && ParseInt(e.title[6..]) == Some(i + 1))
            && e.start == (if rows[i].start.Some? then rows[i].start.value else 0)
            && e.end == (if rows[i].end.Some? then rows[i].end.value else 0)
            && e.text == (if rows[i].text.Some? then rows[i].text.value else "No content available")
  {
    ParseIntOfIntToString(i + 1);
    assert ("Video " + IntToString(i + 1))[6..] == IntToString(i + 1);
  }

  /** The first line: the question quoted, and a line break of its own. */
  function HeaderLine(query: string): string
  {
    Asked + query + Found1 + Found2
  }

  const Asked := "Based on your question '"
  const Found1 := "', I found the following "
  const Found2 := "relevant video content:"

  function Header(query: string): string
  {
    HeaderLine(query) + "\n"
  }

  /** The closing note, kept in short pieces so that each can be checked for line breaks. */
  const Note := Note1 + Note2 + Note3 + Note4 + Note5 + Note6
  const Note1 := "Note: This is a "
  const Note2 := "simplified response. "
  const Note3 := "For a more detailed "
  const Note4 := "answer, please ensure "
  const Note5 := "the generation API "
  const Note6 := "is working properly."

  /** app_minimal.py marks each title with the video camera emoji; process_incoming.py does not. */
  const VideoMark := "\U{1F4F9} "
  const NoMark := ""

  function TimeRange(e: Entry): string
  {
    FormatTime(e.start) + " - " + FormatTime(e.end)
  }

  /** The three strings a row contributes: its title, its time range and its text. */
  datatype Shown = Shown(title: string, timeRange: string, text: string)

  function Show(e: Entry): Shown
  {
    Shown(e.title, TimeRange(e), e.text)
  }

  function ShowAll(entries: seq<Entry>): (r: seq<Shown>)
    ensures |r| == |entries| && forall i :: 0 <= i < |entries| ==> r[i] == Show(entries[i])
  {
    seq(|entries|, i requires 0 <= i < |entries| => Show(entries[i]))
  }

  /** The four parts for one row: title, time range, content and an empty separator. */
  function EntryParts(mark: string, e: Shown): seq<string>
  {
    [mark + e.title, "   Time: " + e.timeRange, "   Content: " + e.text, ""]
  }

  /** The parts for all rows, four per row, in row order. */
  function BodyParts(mark: string, entries: seq<Shown>): (p: seq<string>)
    ensures |p| == 4 * |entries|
  {
    if entries == [] then []
    else BodyParts(mark, entries[..|entries| - 1]) + EntryParts(mark, entries[|entries| - 1])
  }

  /** Row `k` occupies parts `4k` to `4k + 3` of the body. */
  lemma {:induction false} BodyPartsAt(mark: string, entries: seq<Shown>, k: nat)
    requires k < |entries|
    ensures BodyParts(mark, entries)[4 * k..4 * k + 4] == EntryParts(mark, entries[k])
    decreases |entries|
  {
    var n := |entries|;
    var prev := BodyParts(mark, entries[..n - 1]);
    assert BodyParts(mark, entries) == prev + EntryParts(mark, entries[n - 1]);
    if k < n - 1 {
      BodyPartsAt(mark, entries[..n - 1], k);
      assert (prev + EntryParts(mark, entries[n - 1]))[4 * k..4 * k + 4] == prev[4 * k..4 * k + 4];
    } else {
      assert |prev| == 4 * k;
    }
  }

  /** Everything appended to `response_parts`: header, four parts per row, note. */
  function Parts(mark: string, query: string, entries: seq<Shown>): (p: seq<string>)
    ensures |p| == 4 * |entries| + 2
    ensures p[0] == Header(query) && p[|p| - 1] == Note
  {
    [Header(query)] + BodyParts(mark, entries) + [Note]
  }

  /** Row `k` of the answer: its title (with the mark), its time range, its text, a blank. */
  lemma PartsAt(mark: string, query: string, entries: seq<Shown>, k: nat)
    requires k < |entries|
    ensures Parts(mark, query, entries)[4 * k + 1..4 * k + 5] == EntryParts(mark, entries[k])
  {
    var body := BodyParts(mark, entries);
    BodyPartsAt(mark, entries, k);
    assert ([Header(query)] + body + [Note])[4 * k + 1..4 * k + 5] == body[4 * k..4 * k + 4];
  }

  lemma BodyPartsSnoc(mark: string, shown: seq<Shown>, i: nat)
    requires i < |shown|
    ensures BodyParts(mark, shown[..i + 1]) == BodyParts(mark, shown[..i]) + EntryParts(mark, shown[i])
  {
    assert shown[..i + 1][..i] == shown[..i];
  }

  /** One pass of the loop body: the four parts appended for row `i` extend the body by that row. */
  lemma LoopStep(mark: string, header: string, shown: seq<Shown>, i: nat, before: seq<string>,
                 first: string, timeRange: string, text: string)
    requires i < |shown| && shown[i] == Shown(shown[i].title, timeRange, text)
    requires first == mark + shown[i].title
    requires before == [header] + BodyParts(mark, shown[..i])
    ensures before + [first] + ["   Time: " + timeRange] + ["   Content: " + text] + [""]
            == [header] + BodyParts(mark, shown[..i + 1])
  {
    BodyPartsSnoc(mark, shown, i);
  }

  lemma UnmarkedTitle(title: string)
    ensures NoMark + title == title
  {
  }

  /** After the loop: appending the note completes the parts. */
  lemma PartsClose(mark: string, query: string, shown: seq<Shown>, parts: seq<string>)
    requires parts == [Header(query)] + BodyParts(mark, shown)
    ensures Parts(mark, query, shown) == parts + [Note]
  {
  }

  /** The loop of app_minimal.py's `create_fallback_response`, over the retrieved rows as dicts. */
  method CreateFallbackResponse(rows: seq<Record>, query: string) returns (response: string)
    ensures response == Join(Parts(VideoMark, query, ShowAll(WithDefaultsAll(rows))), "\n")
  {
    ghost var shown := ShowAll(WithDefaultsAll(rows));
    var parts := [Header(query)];
    var i := 0;
    while i < |rows|
      invariant 0 <= i <= |rows|
      invariant parts == [Header(query)] + BodyParts(VideoMark, shown[..i])
    {
      var e := WithDefaults(i, rows[i]);
      var timeRange := FormatTime(e.start) + " - " + FormatTime(e.end);
      assert shown[i] == Shown(e.title, timeRange, e.text) by {
        assert shown[i] == Show(WithDefaultsAll(rows)[i]);
      }
      LoopStep(VideoMark, Header(query), shown, i, parts, VideoMark + e.title, timeRange, e.text);
      parts := parts + [VideoMark + e.title];
      parts := parts + ["   Time: " + timeRange];
      parts := parts + ["   Content: " + e.text];
      parts := parts + [""];
      i := i + 1;
    }
    assert shown[..i] == shown;
    PartsClose(VideoMark, query, shown, parts);
    parts := parts + [Note];
    response := Join(parts, "\n");
  }

  /** The loop of process_incoming.py's `create_fallback_response`, over `df.iterrows()`. */
  method CreatePlainFallbackResponse(rows: seq<Entry>, query: string) returns (response: string)
    ensures response == Join(Parts(NoMark, query, ShowAll(rows)), "\n")
  {
    ghost var shown := ShowAll(rows);
    var parts := [Header(query)];
    var i := 0;
    while i < |rows|
      invariant 0 <= i <= |rows|
      invariant parts == [Header(query)] + BodyParts(NoMark, shown[..i])
    {
      var e := rows[i];
      var timeRange := FormatTime(e.start) + " - " + FormatTime(e.end);
      assert shown[i] == Shown(e.title, timeRange, e.text) by {
        assert shown[i] == Show(rows[i]);
      }
      UnmarkedTitle(e.title);
      LoopStep(NoMark, Header(query), shown, i, parts, e.title, timeRange, e.text);
      parts := parts + [e.title];
      parts := parts + ["   Time: " + timeRange];
      parts := parts + ["   Content: " + e.text];
      parts := parts + [""];
      i := i + 1;
    }
    assert shown[..i] == shown;
    PartsClose(NoMark, query, shown, parts);
    parts := parts + [Note];
    response := Join(parts, "\n");
  }

  /** No line break inside a row's fields or the question. */
  predicate SingleLine(s: string)
  {
    '\n' !in s
  }

  predicate SingleLineEntries(mark: string, query: string, entries: seq<Entry>)
  {
    SingleLine(mark) && SingleLine(query)
    && forall i :: 0 <= i < |entries| ==> SingleLine(entries[i].title) && SingleLine(entries[i].text)
  }

  lemma ShowSingleLine(e: Entry)
    requires SingleLine(e.title) && SingleLine(e.text)
    ensures var s := Show(e); SingleLine(s.title) && SingleLine(s.timeRange) && SingleLine(s.text)
  {
    NoNewlineInFormatTime(e.start);
    NoNewlineInFormatTime(e.end);
  }

  lemma {:induction false} BodySingleLine(mark: string, shown: seq<Shown>)
    requires SingleLine(mark)
    requires forall i :: 0 <= i < |shown| ==>
               SingleLine(shown[i].title) && SingleLine(shown[i].timeRange) && SingleLine(shown[i].text)
    ensures forall j :: 0 <= j < |BodyParts(mark, shown)| ==> SingleLine(BodyParts(mark, shown)[j])
    decreases |shown|
  {
    if shown != [] {
      var n := |shown|;
      BodySingleLine(mark, shown[..n - 1]);
      var ep := EntryParts(mark, shown[n - 1]);
      assert SingleLine(ep[0]) && SingleLine(ep[1]) && SingleLine(ep[2]) && SingleLine(ep[3]);
    }
  }

  lemma ConcatSingleLine(a: string, b: string)
    requires SingleLine(a) && SingleLine(b)
    ensures SingleLine(a + b)
  {
    assert forall i :: 0 <= i < |a + b| ==> (a + b)[i] == if i < |a| then a[i] else b[i - |a|];
  }

  lemma HeaderSingleLine(query: string)
    requires SingleLine(query)
    ensures SingleLine(HeaderLine(query))
  {
    assert SingleLine(Asked) && SingleLine(Found1) && SingleLine(Found2);
  }

  lemma NoteHeadSingleLine()
    ensures SingleLine(Note1) && SingleLine(Note2) && SingleLine(Note3)
  {
  }

  lemma NoteTailSingleLine()
    ensures SingleLine(Note4) && SingleLine(Note5) && SingleLine(Note6)
  {
  }

  lemma NoteSingleLine()
    ensures SingleLine(Note)
  {
    NoteHeadSingleLine();
    NoteTailSingleLine();
  }

  /** A header ending in a line break, single-line parts and a single-line last part split back
      into the header, an empty line and the parts. */
  lemma {:induction false} SplitFramedJoin(header: string, body: seq<string>, last: string)
    requires SingleLine(header) && SingleLine(last)
    requires forall j :: 0 <= j < |body| ==> SingleLine(body[j])
    ensures Split(Join([header + "\n"] + body + [last], "\n"), '\n') == [header, ""] + body + [last]
  {
    var rest := body + [last];
    var lines := [header, ""] + rest;
    assert ([header + "\n"] + body + [last])[1..] == rest;
    assert Join([header + "\n"] + body + [last], "\n") == header + "\n" + "\n" + Join(rest, "\n");
    assert lines[1..] == [""] + rest;
    assert ([""] + rest)[1..] == rest;
    var tail := Join(rest, "\n");
    assert Join(lines, "\n") == header + "\n" + ("" + "\n" + tail);
    assert "" + "\n" + tail == "\n" + tail;
    assert header + "\n" + ("\n" + tail) == header + "\n" + "\n" + tail;
    assert Join(lines, "\n") == Join([header + "\n"] + body + [last], "\n");
    assert forall i :: 0 <= i < |lines| ==> '\n' !in lines[i] by {
      forall i | 0 <= i < |lines| ensures '\n' !in lines[i] {
        if 2 <= i < 2 + |body| {
          assert lines[i] == body[i - 2];
        }
      }
    }
    SplitJoin(lines, '\n');
  }

  /** Line by line, the answer is the header, an empty line, the four lines of every row in
      order and the note: `4n + 3` lines for `n` rows. */
  lemma FallbackLines(mark: string, query: string, entries: seq<Entry>)
    requires SingleLineEntries(mark, query, entries)
    ensures var lines := Split(Join(Parts(mark, query, ShowAll(entries)), "\n"), '\n');
            |lines| == 4 * |entries| + 3
            && lines == [HeaderLine(query), ""] + BodyParts(mark, ShowAll(entries)) + [Note]
  {
    var shown := ShowAll(entries);
    HeaderSingleLine(query);
    NoteSingleLine();
    forall i | 0 <= i < |entries| {
      ShowSingleLine(entries[i]);
    }
    BodySingleLine(mark, shown);
    SplitFramedJoin(HeaderLine(query), BodyParts(mark, shown), Note);
  }

  /** The worked example: a row from 125 s to 167 s shows the range `2:05 - 2:47`. */
  lemma ExampleTimeRange()
    ensures TimeRange(Entry("t", 125, 167, "x")) == "2:05 - 2:47"
  {
  }
}
