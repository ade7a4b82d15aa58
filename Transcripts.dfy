/**
 * Turning transcribed videos into per-video chunk files (mp4_to_json.py and create_chunks.py).
 * The speech-to-text model is an oracle: `transcribe(name)` is the transcription of the video
 * `learning_videos/<name>`, or `None` when transcribing or writing that file raised.
 */
module Transcripts {
  import opened Wrappers
  import opened Text

  /** One Whisper segment. Times are whole seconds in this model. */
  datatype Segment = Segment(start: int, end: int, text: string)

  /** What the speech-to-text model returns for one video. */
  datatype Transcription = Transcription(segments: seq<Segment>, text: string)

  /** One transcript chunk record `{number, title, start, end, text}`. */
  datatype Chunk = Chunk(number: int, title: string, start: int, end: int, text: string)

  /** The JSON document written per video: `{file, chunks, full_text}`. */
  datatype ChunkFile = ChunkFile(file: string, chunks: seq<Chunk>, fullText: string)

  /** A chunk file written to `path`. */
  datatype Written = Written(path: string, content: ChunkFile)

  const VideoSuffix := ".mp4"

  /** The chunk title: the file name with every `.mp4` removed. */
  function Title(name: string): string
  {
    ReplaceAll(name, VideoSuffix, "")
  }

  /** The output file: `jsons/` and the file name with every `.mp4` replaced by `.json`. */
  function OutputPath(name: string): string
  {
    "jsons/" + ReplaceAll(name, VideoSuffix, ".json")
  }

  /** Replacing `.mp4` in `base + ".mp4"` touches only the suffix when `base` holds no `.mp4`:
      `.mp4` cannot overlap itself, so no occurrence straddles the boundary. */
  lemma {:induction false} ReplaceVideoSuffix(base: string, rep: string)
    requires forall i :: 0 <= i <= |base| ==> !OccursAt(base, VideoSuffix, i)
    ensures ReplaceAll(base + VideoSuffix, VideoSuffix, rep) == base + rep
    decreases |base|
  {
    var s := base + VideoSuffix;
    if base == [] {
      assert s[..4] == VideoSuffix;
      assert s[4..] == [];
    } else {
      assert s[..4] != VideoSuffix by {
        if |base| >= 4 {
          assert !OccursAt(base, VideoSuffix, 0);
          assert s[..4] == base[0..4];
        } else {
          assert s[|base|] == '.';
          assert VideoSuffix[|base|] != '.';
        }
      }
      forall i | 0 <= i <= |base[1..]| ensures !OccursAt(base[1..], VideoSuffix, i) {
        if i + 4 <= |base| - 1 {
          assert base[1..][i..i + 4] == base[i + 1..i + 5];
          assert !OccursAt(base, VideoSuffix, i + 1);
        }
      }
      ReplaceVideoSuffix(base[1..], rep);
      assert s[1..] == base[1..] + VideoSuffix;
      assert base == [base[0]] + base[1..];
    }
  }

  /** For a video named `<base>.mp4` the title is `<base>` and the output is `jsons/<base>.json`. */
  lemma VideoNames(base: string)
    requires forall i :: 0 <= i <= |base| ==> !OccursAt(base, VideoSuffix, i)
    ensures Title(base + VideoSuffix) == base
    ensures OutputPath(base + VideoSuffix) == "jsons/" + base + ".json"
  {
    ReplaceVideoSuffix(base, "");
    ReplaceVideoSuffix(base, ".json");
  }

  /** `[f for f in audios if f.endswith(".mp4")]`. */
  function VideoFiles(names: seq<string>): (r: seq<string>)
    ensures |r| <= |names|
  {
    if names == [] then []
    else (if EndsWith(names[0], VideoSuffix) then [names[0]] else []) + VideoFiles(names[1..])
  }

  /** The filter keeps exactly the names ending in `.mp4`. */
  lemma {:induction false} VideoFilesMembers(names: seq<string>)
    ensures forall x :: x in VideoFiles(names) <==> x in names && EndsWith(x, VideoSuffix)
    decreases |names|
  {
    if names != [] {
      VideoFilesMembers(names[1..]);
      assert names == [names[0]] + names[1..];
    }
  }

  /** The filter keeps the listing's order. */
  lemma {:induction false} VideoFilesAppend(a: seq<string>, b: seq<string>)
    ensures VideoFiles(a + b) == VideoFiles(a) + VideoFiles(b)
    decreases |a|
  {
    if a != [] {
      assert (a + b)[0] == a[0];
      assert (a + b)[1..] == a[1..] + b;
      VideoFilesAppend(a[1..], b);
    } else {
      assert a + b == b;
    }
  }

  /** The chunks of one video: numbered from 1 in segment order, all carrying the video's
      title, times and text copied from their segment. */
  function ChunksOf(name: string, segments: seq<Segment>): (r: seq<Chunk>)
    ensures |r| == |segments|
    ensures forall i :: 0 <= i < |segments| ==>
              r[i] == Chunk(i + 1, Title(name), segments[i].start, segments[i].end, segments[i].text)
  {
    if segments == [] then []
    else
      var n := |segments|;
      var last := segments[n - 1];
      ChunksOf(name, segments[..n - 1]) + [Chunk(n, Title(name), last.start, last.end, last.text)]
  }

  /** The loop `for i, segment in enumerate(result["segments"], start=1): chunks.append(...)`. */
  method BuildChunks(name: string, segments: seq<Segment>) returns (chunks: seq<Chunk>)
    ensures chunks == ChunksOf(name, segments)
  {
    chunks := [];
    var i := 0;
    while i < |segments|
      invariant 0 <= i <= |segments|
      invariant chunks == ChunksOf(name, segments[..i])
    {
      var segment := segments[i];
      chunks := chunks + [Chunk(i + 1, Title(name), segment.start, segment.end, segment.text)];
      i := i + 1;
      assert segments[..i][..i - 1] == segments[..i - 1];
    }
    assert segments[..i] == segments;
  }

  /** The file written for a transcribed video. */
  function WrittenFor(name: string, t: Transcription): Written
  {
    Written(OutputPath(name), ChunkFile(name, ChunksOf(name, t.segments), t.text))
  }

  /** The files written for `videos` when every failing video is skipped. */
  function WrittenAll(videos: seq<string>, transcribe: string -> Option<Transcription>): seq<Written>
  {
    if videos == [] then []
    else
      var n := |videos|;
      WrittenAll(videos[..n - 1], transcribe)
      + match transcribe(videos[n - 1])
        case Some(t) => [WrittenFor(videos[n - 1], t)]
        case None => []
  }

  /** The videos whose processing raised, in order. */
  function FailedAll(videos: seq<string>, transcribe: string -> Option<Transcription>): seq<string>
  {
    if videos == [] then []
    else
      var n := |videos|;
      FailedAll(videos[..n - 1], transcribe)
      + if transcribe(videos[n - 1]).None? then [videos[n - 1]] else []
  }

  /** Per-file isolation: a video that fails adds nothing, and the videos after it are
      processed as if it were not there. */
  lemma {:induction false} WrittenAllAppend(a: seq<string>, b: seq<string>, transcribe: string -> Option<Transcription>)
    ensures WrittenAll(a + b, transcribe) == WrittenAll(a, transcribe) + WrittenAll(b, transcribe)
    decreases |b|
  {
    if b != [] {
      var n := |b|;
      assert (a + b)[..|a + b| - 1] == a + b[..n - 1];
      WrittenAllAppend(a, b[..n - 1], transcribe);
    } else {
      assert a + b == a;
    }
  }

  lemma SkipFailedVideo(a: seq<string>, v: string, b: seq<string>, transcribe: string -> Option<Transcription>)
    requires transcribe(v).None?
    ensures WrittenAll(a + [v] + b, transcribe) == WrittenAll(a, transcribe) + WrittenAll(b, transcribe)
  {
    WrittenAllAppend(a + [v], b, transcribe);
    assert (a + [v])[..|a|] == a;
    assert WrittenAll(a + [v], transcribe) == WrittenAll(a, transcribe);
  }

  datatype RunOutcome = Completed(written: seq<Written>, failed: seq<string>) | Exited(code: int)

  /** `main` of mp4_to_json.py: exit 1 without `learning_videos` or without any `.mp4` file;
      otherwise every `.mp4` file is processed in listing order, each failure is reported and
      skipped. */
  method Mp4ToJsonMain(dirExists: bool, listing: seq<string>, transcribe: string -> Option<Transcription>)
    returns (out: RunOutcome)
    ensures !dirExists ==> out == Exited(1)
    ensures dirExists && VideoFiles(listing) == [] ==> out == Exited(1)
    ensures dirExists && VideoFiles(listing) != [] ==>
              out == Completed(WrittenAll(VideoFiles(listing), transcribe), FailedAll(VideoFiles(listing), transcribe))
  {
    if !dirExists {
      return Exited(1);
    }
    var videos := VideoFiles(listing);
    if videos == [] {
      return Exited(1);
    }
    var written: seq<Written> := [];
    var failed: seq<string> := [];
    var i := 0;
    while i < |videos|
      invariant 0 <= i <= |videos|
      invariant written == WrittenAll(videos[..i], transcribe)
      invariant failed == FailedAll(videos[..i], transcribe)
    {
      var video := videos[i];
      var result := transcribe(video);
      assert videos[..i + 1][..i] == videos[..i];
      match result {
        case Some(t) =>
          var chunks := BuildChunks(video, t.segments);
          written := written + [Written(OutputPath(video), ChunkFile(video, chunks, t.text))];
        case None =>
          failed := failed + [video];
      }
      i := i + 1;
    }
    assert videos[..i] == videos;
    out := Completed(written, failed);
  }

  /** How many of `videos` are transcribed before the first failure. */
  function SucceedingPrefix(videos: seq<string>, transcribe: string -> Option<Transcription>): (k: nat)
    ensures k <= |videos|
    ensures forall i :: 0 <= i < k ==> transcribe(videos[i]).Some?
    ensures k < |videos| ==> transcribe(videos[k]).None?
  {
    if videos == [] || transcribe(videos[0]).None? then 0
    else 1 + SucceedingPrefix(videos[1..], transcribe)
  }

  /** The top-level script create_chunks.py: `.mp4` entries in listing order, with no error
      handling, so the first failure ends the script and the files written before it remain. */
  method CreateChunksScript(listing: seq<string>, transcribe: string -> Option<Transcription>)
    returns (written: seq<Written>, crashed: bool)
    ensures var videos := VideoFiles(listing);
            var k := SucceedingPrefix(videos, transcribe);
            crashed == (k < |videos|) && written == WrittenAll(videos[..k], transcribe)
  {
    written := [];
    crashed := false;
    ghost var done: seq<string> := [];
    var j := 0;
    while j < |listing|
      invariant 0 <= j <= |listing|
      invariant done == VideoFiles(listing[..j])
      invariant forall i :: 0 <= i < |done| ==> transcribe(done[i]).Some?
      invariant written == WrittenAll(done, transcribe)
    {
      var audio := listing[j];
      if EndsWith(audio, VideoSuffix) {
        var result := transcribe(audio);
        if result.None? {
          crashed := true;
          CrashPosition(listing, j, done, transcribe);
          return;
        }
        var chunks := BuildChunks(audio, result.value.segments);
        written := written + [Written(OutputPath(audio), ChunkFile(audio, chunks, result.value.text))];
        ScriptStep(listing, j, done, transcribe);
        done := done + [audio];
      } else {
        VideoFilesStep(listing, j);
      }
      j := j + 1;
    }
    assert listing[..j] == listing;
    ScriptEnd(done, transcribe);
  }

  /** When every video transcribes, the successful prefix is the whole list. */
  lemma ScriptEnd(videos: seq<string>, transcribe: string -> Option<Transcription>)
    requires forall i :: 0 <= i < |videos| ==> transcribe(videos[i]).Some?
    ensures SucceedingPrefix(videos, transcribe) == |videos| && videos[..|videos|] == videos
  {
    SucceedingPrefixAt(videos, |videos|, transcribe);
  }

  /** A video that transcribes extends the files done and the files written by one. */
  lemma ScriptStep(listing: seq<string>, j: nat, done: seq<string>, transcribe: string -> Option<Transcription>)
    requires j < |listing| && EndsWith(listing[j], VideoSuffix) && transcribe(listing[j]).Some?
    requires done == VideoFiles(listing[..j]) && forall i :: 0 <= i < |done| ==> transcribe(done[i]).Some?
    ensures done + [listing[j]] == VideoFiles(listing[..j + 1])
    ensures forall i :: 0 <= i < |done| + 1 ==> transcribe((done + [listing[j]])[i]).Some?
    ensures WrittenAll(done + [listing[j]], transcribe)
            == WrittenAll(done, transcribe) + [WrittenFor(listing[j], transcribe(listing[j]).value)]
  {
    VideoFilesStep(listing, j);
    WrittenAllSnoc(done, listing[j], transcribe);
  }

  lemma VideoFilesStep(listing: seq<string>, j: nat)
    requires j < |listing|
    ensures VideoFiles(listing[..j + 1])
            == VideoFiles(listing[..j]) + if EndsWith(listing[j], VideoSuffix) then [listing[j]] else []
  {
    VideoFilesAppend(listing[..j], [listing[j]]);
    assert listing[..j + 1] == listing[..j] + [listing[j]];
  }

  lemma WrittenAllSnoc(done: seq<string>, v: string, transcribe: string -> Option<Transcription>)
    requires transcribe(v).Some?
    ensures WrittenAll(done + [v], transcribe) == WrittenAll(done, transcribe) + [WrittenFor(v, transcribe(v).value)]
  {
    assert (done + [v])[..|done|] == done;
  }

  /** When the script stops at entry `j`, what it wrote is the written files of the successful
      prefix of the `.mp4` list. */
  lemma CrashPosition(listing: seq<string>, j: nat, done: seq<string>, transcribe: string -> Option<Transcription>)
    requires j < |listing| && EndsWith(listing[j], VideoSuffix) && transcribe(listing[j]).None?
    requires done == VideoFiles(listing[..j])
    requires forall i :: 0 <= i < |done| ==> transcribe(done[i]).Some?
    ensures var videos := VideoFiles(listing);
            |done| < |videos| && SucceedingPrefix(videos, transcribe) == |done| && videos[..|done|] == done
  {
    var v := listing[j];
    var rest := VideoFiles(listing[j + 1..]);
    var videos := VideoFiles(listing);
    assert videos == (done + [v]) + rest by {
      VideoFilesStep(listing, j);
      VideoFilesAppend(listing[..j + 1], listing[j + 1..]);
      assert listing[..j + 1] + listing[j + 1..] == listing;
    }
    assert videos[|done|] == v && videos[..|done|] == done;
    assert forall i :: 0 <= i < |done| ==> videos[i] == done[i];
    SucceedingPrefixAt(videos, |done|, transcribe);
  }

  /** The prefix length is determined by where the first failure is. */
  lemma SucceedingPrefixAt(videos: seq<string>, k: nat, transcribe: string -> Option<Transcription>)
    requires k <= |videos|
    requires forall i :: 0 <= i < k ==> transcribe(videos[i]).Some?
    requires k < |videos| ==> transcribe(videos[k]).None?
    ensures SucceedingPrefix(videos, transcribe) == k
  {
  }
}
