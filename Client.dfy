/**
 * The browser side (static/script.js): `formatMessage`, which turns an answer into the HTML
 * shown in the chat, and the page state that `sendMessage` and the input handler keep. The
 * DOM, `fetch`, timers and scrolling are not modelled; a request's result arrives as a value.
 */
module Client {
  import opened Wrappers
  import opened Text

  /** U+1F4F9, the video camera emoji the service puts before each title. JavaScript sees it as
      a surrogate pair in both the pattern and the text, which matches it as one character. */
  const Camera: char := '\U{1F4F9}'

  const BreakTag := "<br>"
  const SpanOpen := "<span class=\"timestamp\">"
  const SpanClose := "</span>"
  const StrongOpen := "<strong class=\"video-title\">"
  const StrongClose := "</strong>"

  /** `content.replace(/\n/g, '<br>')`. */
  function BreakLines(s: string): string
  {
    ReplaceAll(s, "\n", BreakTag)
  }

  lemma {:induction false} JoinConsHead(c: char, p: string, ps: seq<string>, sep: string)
    ensures Join([[c] + p] + ps, sep) == [c] + Join([p] + ps, sep)
  {
    if ps != [] {
      assert ([[c] + p] + ps)[1..] == ps;
      assert ([p] + ps)[1..] == ps;
    }
  }

  /** Every line break becomes `<br>`: the result is the lines of the text joined with `<br>`. */
  lemma {:induction false} BreakLinesJoinsLines(s: string)
    ensures BreakLines(s) == Join(Split(s, '\n'), BreakTag)
    decreases |s|
  {
    if s != [] {
      BreakLinesJoinsLines(s[1..]);
      var rest := Split(s[1..], '\n');
      if s[0] == '\n' {
        assert s[..1] == "\n";
        assert IndexOf(s, '\n') == Some(0);
        assert Split(s, '\n') == [[]] + rest;
        assert ([[]] + rest)[1..] == rest;
      } else {
        assert s[..1] != "\n";
        assert BreakLines(s) == [s[0]] + BreakLines(s[1..]);
        match IndexOf(s[1..], '\n')
        case None =>
          assert IndexOf(s, '\n') == None;
          assert Split(s, '\n') == [s] && rest == [s[1..]];
          assert s == [s[0]] + s[1..];
        case Some(i) =>
          assert IndexOf(s, '\n') == Some(i + 1);
          assert s[i + 2..] == s[1..][i + 1..];
          assert s[..i + 1] == [s[0]] + s[1..][..i];
          assert Split(s, '\n') == [[s[0]] + s[1..][..i]] + Split(s[1..][i + 1..], '\n');
          assert rest == [s[1..][..i]] + Split(s[1..][i + 1..], '\n');
          JoinConsHead(s[0], s[1..][..i], Split(s[1..][i + 1..], '\n'), BreakTag);
      }
    }
  }

  lemma {:induction false} BreakLinesRemovesNewlines(s: string)
    ensures '\n' !in BreakLines(s)
    decreases |s|
  {
    if |s| >= 1 {
      BreakLinesRemovesNewlines(s[1..]);
      if s[..1] != "\n" {
        assert s[0] != '\n';
      }
    }
  }

  /** The end of the run of decimal digits that starts at `i`. */
  function DigitsEnd(s: string, i: nat): (j: nat)
    requires i <= |s|
    ensures i <= j <= |s| && (forall k :: i <= k < j ==> IsDigit(s[k])) && (j == |s| || !IsDigit(s[j]))
    decreases |s| - i
  {
    if i < |s| && IsDigit(s[i]) then DigitsEnd(s, i + 1) else i
  }

  /** `t` is a match of `\d+:\d+`: digits, a colon, digits. */
  predicate Timestamp(t: string)
  {
    exists c :: 0 < c < |t| - 1 && t[c] == ':' && AllDigits(t[..c]) && AllDigits(t[c + 1..])
  }

  /** The match of `\d+:\d+` at the start of `s`, by its length. Both `\d+` are greedy, so the
      match is the longest one; there is none exactly when no prefix is a timestamp. */
  function TimestampLength(s: string): (n: Option<nat>)
    ensures n.Some? ==> 3 <= n.value <= |s| && Timestamp(s[..n.value]) && (n.value == |s| || !IsDigit(s[n.value]))
    ensures n.Some? ==> forall m :: n.value < m <= |s| ==> !Timestamp(s[..m])
    ensures n.None? ==> forall m :: 0 <= m <= |s| ==> !Timestamp(s[..m])
  {
    var j := DigitsEnd(s, 0);
    if 0 < j && j + 1 < |s| && s[j] == ':' && IsDigit(s[j + 1]) then
      var k := DigitsEnd(s, j + 1);
      TimestampShape(s, j, k);
      Some(k)
    else
      TimestampAbsent(s, j);
      None
  }

  /** A run of digits from `i` that stops at `c` ends there. */
  lemma {:induction false} DigitsEndAt(s: string, i: nat, c: nat)
    requires i <= c <= |s| && (forall k :: i <= k < c ==> IsDigit(s[k])) && (c == |s| || !IsDigit(s[c]))
    ensures DigitsEnd(s, i) == c
    decreases c - i
  {
    if i < c {
      DigitsEndAt(s, i + 1, c);
    }
  }

  /** In a timestamp that starts at the beginning of `s`, the colon is where the first run of
      digits ends. */
  lemma ColonAtDigitsEnd(s: string, m: nat, c: nat)
    requires m <= |s| && 0 < c < m - 1 && s[..m][c] == ':' && AllDigits(s[..m][..c])
    ensures c == DigitsEnd(s, 0)
  {
    forall k | 0 <= k < c ensures IsDigit(s[k]) {
      assert s[..m][..c][k] == s[k];
    }
    DigitsEndAt(s, 0, c);
  }

  lemma TimestampShape(s: string, j: nat, k: nat)
    requires j == DigitsEnd(s, 0) && 0 < j && j + 1 < |s| && s[j] == ':' && IsDigit(s[j + 1])
    requires k == DigitsEnd(s, j + 1)
    ensures Timestamp(s[..k])
    ensures forall m :: k < m <= |s| ==> !Timestamp(s[..m])
  {
    var t := s[..k];
    assert t[j] == ':' && AllDigits(t[..j]) && AllDigits(t[j + 1..]);
    forall m, c | k < m <= |s| && 0 < c < m - 1 && s[..m][c] == ':' && AllDigits(s[..m][..c])
      ensures !AllDigits(s[..m][c + 1..])
    {
      ColonAtDigitsEnd(s, m, c);
      assert s[..m][c + 1..][k - c - 1] == s[k];
    }
  }

  lemma TimestampAbsent(s: string, j: nat)
    requires j == DigitsEnd(s, 0)
    requires !(0 < j && j + 1 < |s| && s[j] == ':' && IsDigit(s[j + 1]))
    ensures forall m :: 0 <= m <= |s| ==> !Timestamp(s[..m])
  {
    forall m, c | 0 <= m <= |s| && 0 < c < m - 1 && s[..m][c] == ':' && AllDigits(s[..m][..c])
      ensures !AllDigits(s[..m][c + 1..])
    {
      ColonAtDigitsEnd(s, m, c);
      assert s[..m][c + 1..][0] == s[j + 1];
    }
  }

  /** A matcher anchored at the start of a text: the length of its match there, if any. */
  ghost predicate Matcher(m: string -> Option<nat>)
  {
    forall t :: m(t).Some? ==> 1 <= m(t).value <= |t|
  }

  /** A global `replace` whose replacement is `open + $1 + close`: scanning left to right, each
      match is wrapped and scanning resumes after it; other characters are copied. */
  function WrapAll(s: string, m: string -> Option<nat>, open: string, close: string): string
    requires Matcher(m)
    decreases |s|
  {
    if s == [] then []
    else match m(s)
      case Some(n) => open + s[..n] + close + WrapAll(s[n..], m, open, close)
      case None => [s[0]] + WrapAll(s[1..], m, open, close)
  }

  /** No match starts before position `p`. */
  predicate NoMatchBefore(s: string, m: string -> Option<nat>, p: nat)
    requires p <= |s|
  {
    forall i :: 0 <= i < p ==> m(s[i..]).None?
  }

  /** The text before the first match is copied as it is. */
  lemma {:induction false} WrapAllCopiesPrefix(s: string, m: string -> Option<nat>, open: string, close: string, p: nat)
    requires Matcher(m) && p <= |s| && NoMatchBefore(s, m, p)
    ensures WrapAll(s, m, open, close) == s[..p] + WrapAll(s[p..], m, open, close)
    decreases p
  {
    if p == 0 {
      assert s[..0] == [] && s[0..] == s;
    } else {
      var t := s[1..];
      assert m(s).None? by { assert s[0..] == s; }
      assert NoMatchBefore(t, m, p - 1) by {
        forall i | 0 <= i < p - 1 ensures m(t[i..]).None? {
          assert t[i..] == s[i + 1..];
        }
      }
      WrapAllCopiesPrefix(t, m, open, close, p - 1);
      var rest := WrapAll(s[p..], m, open, close);
      assert WrapAll(t, m, open, close) == t[..p - 1] + rest by { assert t[p - 1..] == s[p..]; }
      assert s[..p] == [s[0]] + t[..p - 1];
      ConsAssoc(s[0], t[..p - 1], rest);
    }
  }

  lemma ConsAssoc(c: char, a: string, b: string)
    ensures [c] + (a + b) == ([c] + a) + b
  {
  }

  lemma Assoc(a: string, b: string, c: string)
    ensures a + (b + c) == (a + b) + c
  {
  }

  /** The leftmost match is wrapped first and the text before it is copied as it is. */
  lemma WrapAllLeftmost(s: string, m: string -> Option<nat>, open: string, close: string, p: nat, n: nat)
    requires Matcher(m) && p < |s| && NoMatchBefore(s, m, p) && m(s[p..]) == Some(n)
    ensures p + n <= |s|
    ensures WrapAll(s, m, open, close) == s[..p] + (open + s[p..p + n] + close) + WrapAll(s[p + n..], m, open, close)
  {
    var u := s[p..];
    var mid := open + s[p..p + n] + close;
    var post := WrapAll(s[p + n..], m, open, close);
    assert WrapAll(u, m, open, close) == mid + post by {
      assert u[..n] == s[p..p + n];
      assert u[n..] == s[p + n..];
    }
    WrapAllCopiesPrefix(s, m, open, close, p);
    assert WrapAll(s, m, open, close) == s[..p] + (mid + post);
    Assoc(s[..p], mid, post);
  }

  /** Text in which no match starts passes through unchanged. */
  lemma {:induction false} WrapAllUnchanged(s: string, m: string -> Option<nat>, open: string, close: string)
    requires Matcher(m) && NoMatchBefore(s, m, |s|)
    ensures WrapAll(s, m, open, close) == s
    decreases |s|
  {
    if s != [] {
      assert s[0..] == s;
      var t := s[1..];
      forall i | 0 <= i < |t| ensures m(t[i..]).None? {
        assert t[i..] == s[i + 1..];
      }
      WrapAllUnchanged(t, m, open, close);
    }
  }

  lemma NoNewlineInConcat(a: string, b: string)
    requires '\n' !in a && '\n' !in b
    ensures '\n' !in a + b
  {
    assert forall i :: 0 <= i < |a + b| ==> (a + b)[i] == if i < |a| then a[i] else b[i - |a|];
  }

  lemma NoNewlineInSlice(s: string, i: nat, j: nat)
    requires '\n' !in s && i <= j <= |s|
    ensures '\n' !in s[i..j]
  {
    assert forall k :: 0 <= k < j - i ==> s[i..j][k] == s[i + k];
  }

  /** Wrapping adds no line break when the tags have none. */
  lemma {:induction false} WrapAllKeepsNoNewline(s: string, m: string -> Option<nat>, open: string, close: string)
    requires Matcher(m) && '\n' !in s && '\n' !in open && '\n' !in close
    ensures '\n' !in WrapAll(s, m, open, close)
    decreases |s|
  {
    if s != [] {
      match m(s)
      case Some(n) =>
        NoNewlineInSlice(s, 0, n);
        NoNewlineInSlice(s, n, |s|);
        assert s[0..n] == s[..n] && s[n..|s|] == s[n..];
        WrapAllKeepsNoNewline(s[n..], m, open, close);
        NoNewlineInConcat(open, s[..n]);
        NoNewlineInConcat(open + s[..n], close);
        NoNewlineInConcat(open + s[..n] + close, WrapAll(s[n..], m, open, close));
      case None =>
        NoNewlineInSlice(s, 1, |s|);
        assert s[1..|s|] == s[1..];
        WrapAllKeepsNoNewline(s[1..], m, open, close);
        NoNewlineInConcat([s[0]], WrapAll(s[1..], m, open, close));
    }
  }

  /** `content.replace(/(\d+:\d+)/g, '<span class="timestamp">$1</span>')`. */
  function WrapTimestamps(s: string): string
  {
    WrapAll(s, TimestampLength, SpanOpen, SpanClose)
  }

  /** The first `<` at or after `i`, or the end of the text. */
  function NextTag(s: string, i: nat): (k: nat)
    requires i <= |s|
    ensures i <= k <= |s| && (forall j :: i <= j < k ==> s[j] != '<') && (k == |s| || s[k] == '<')
    decreases |s| - i
  {
    if i < |s| && s[i] != '<' then NextTag(s, i + 1) else i
  }

  /** `t` is a match of `📹\s*[^<]+`. Whitespace is never `<`, so these are the texts made of
      the camera and at least one more character, none of them `<`. */
  predicate TitleRun(t: string)
  {
    2 <= |t| && t[0] == Camera && forall j :: 1 <= j < |t| ==> t[j] != '<'
  }

  /** The match of `📹\s*[^<]+` at the start of `s`, by its length: greedy, so it runs to just
      before the next `<` or to the end. */
  function TitleLength(s: string): (n: Option<nat>)
    ensures n.Some? ==> n.value <= |s| && TitleRun(s[..n.value]) && (n.value == |s| || s[n.value] == '<')
    ensures n.None? ==> forall m :: 0 <= m <= |s| ==> !TitleRun(s[..m])
  {
    if 2 <= |s| && s[0] == Camera && s[1] != '<' then
      var k := NextTag(s, 1);
      assert forall j :: 1 <= j < k ==> s[..k][j] == s[j];
      Some(k)
    else
      assert forall m :: 2 <= m <= |s| ==> s[..m][0] == s[0] && s[..m][1] == s[1];
      None
  }

  /** `content.replace(/(📹\s*[^<]+)/g, '<strong class="video-title">$1</strong>')`. */
  function WrapTitles(s: string): string
  {
    WrapAll(s, TitleLength, StrongOpen, StrongClose)
  }

  /** `formatMessage`: line breaks, then timestamps, then titles, in that order. */
  function FormatMessage(content: string): string
  {
    WrapTitles(WrapTimestamps(BreakLines(content)))
  }

  lemma TagsHaveNoNewline()
    ensures '\n' !in SpanOpen && '\n' !in SpanClose && '\n' !in StrongOpen && '\n' !in StrongClose
  {
  }

  /** The formatted message has no line break left. */
  lemma FormatMessageHasNoNewline(content: string)
    ensures '\n' !in FormatMessage(content)
  {
    TagsHaveNoNewline();
    BreakLinesRemovesNewlines(content);
    WrapAllKeepsNoNewline(BreakLines(content), TimestampLength, SpanOpen, SpanClose);
    WrapAllKeepsNoNewline(WrapTimestamps(BreakLines(content)), TitleLength, StrongOpen, StrongClose);
  }

  lemma TimestampMatcher()
    ensures Matcher(TimestampLength)
  {
    forall t | TimestampLength(t).Some? ensures 1 <= TimestampLength(t).value <= |t| {
    }
  }

  lemma TitleMatcher()
    ensures Matcher(TitleLength)
  {
    forall t | TitleLength(t).Some? ensures 1 <= TitleLength(t).value <= |t| {
    }
  }

  /** The leftmost timestamp, of length `n`, is wrapped whole, digits and colon, and it is the
      longest match there. */
  lemma WrapTimestampsLeftmost(s: string, p: nat, n: nat)
    requires p < |s| && NoMatchBefore(s, TimestampLength, p) && TimestampLength(s[p..]) == Some(n)
    ensures p + n <= |s| && Timestamp(s[p..p + n]) && (p + n == |s| || !IsDigit(s[p + n]))
    ensures WrapTimestamps(s) == s[..p] + (SpanOpen + s[p..p + n] + SpanClose) + WrapTimestamps(s[p + n..])
  {
    assert Timestamp(s[p..p + n]) by {
      assert s[p..][..n] == s[p..p + n];
    }
    if p + n < |s| {
      assert s[p..][n] == s[p + n];
    }
    TimestampMatcher();
    WrapAllLeftmost(s, TimestampLength, SpanOpen, SpanClose, p, n);
  }

  /** A title of length `n` starting at `p`, with no title before it, is wrapped up to the next
      tag, and the wrapped run contains no `<`: it never reaches into a `<br>` or a timestamp
      span. */
  lemma WrapTitlesLeftmost(s: string, p: nat, n: nat)
    requires p < |s| && NoMatchBefore(s, TitleLength, p) && TitleLength(s[p..]) == Some(n)
    ensures p + n <= |s| && TitleRun(s[p..p + n]) && '<' !in s[p..p + n] && (p + n == |s| || s[p + n] == '<')
    ensures WrapTitles(s) == s[..p] + (StrongOpen + s[p..p + n] + StrongClose) + WrapTitles(s[p + n..])
  {
    assert TitleRun(s[p..p + n]) && '<' !in s[p..p + n] by {
      assert s[p..][..n] == s[p..p + n];
    }
    if p + n < |s| {
      assert s[p..][n] == s[p + n];
    }
    TitleMatcher();
    WrapAllLeftmost(s, TitleLength, StrongOpen, StrongClose, p, n);
  }

  /** Text without a line break keeps its characters through the first pass. */
  lemma BreakLinesUnchanged(content: string)
    requires '\n' !in content
    ensures BreakLines(content) == content
  {
    forall i | 0 <= i <= |content| ensures !OccursAt(content, "\n", i) {
      if i + 1 <= |content| {
        assert content[i] != '\n';
        assert content[i..i + 1][0] == content[i];
      }
    }
    ReplaceAllAbsent(content, "\n", BreakTag);
  }

  /** Text without a camera holds no title. */
  lemma NoCameraNoTitle(content: string)
    requires Camera !in content
    ensures NoMatchBefore(content, TitleLength, |content|)
  {
    forall i | 0 <= i < |content| ensures TitleLength(content[i..]).None? {
      assert content[i..][0] == content[i];
    }
  }

  /** A one-line message without a timestamp or a camera is shown as it is. */
  lemma FormatMessageUnchanged(content: string)
    requires '\n' !in content && Camera !in content && NoMatchBefore(content, TimestampLength, |content|)
    ensures FormatMessage(content) == content
  {
    BreakLinesUnchanged(content);
    TimestampMatcher();
    WrapAllUnchanged(content, TimestampLength, SpanOpen, SpanClose);
    TitleMatcher();
    NoCameraNoTitle(content);
    WrapAllUnchanged(content, TitleLength, StrongOpen, StrongClose);
  }

  datatype Sender = User | Ai

  /** A message in the chat: who sent it and its text; `FormatMessage` gives its HTML. */
  datatype Message = Message(content: string, sender: Sender)

  /** How the request of `sendMessage` came back: `Replied(r)` is a 2xx status whose JSON has a
      string `response`; anything else (network error, other status, bad JSON, no `response`,
      on which `formatMessage` throws) is `Failed`. */
  datatype Result = Replied(response: string) | Failed

  const ErrorReply := "Sorry, I encountered an error. Please try again."

  function ReplyText(r: Result): string
  {
    match r
    case Replied(t) => t
    case Failed => ErrorReply
  }

  /** The page: `isLoading`, the text in the input box, whether the send button is disabled,
      and the messages shown. */
  class ChatPage {
    var isLoading: bool
    var inputValue: string
    var sendDisabled: bool
    var messages: seq<Message>

    /** The button is disabled whenever a request is in flight. */
    predicate Valid()
      reads this
    {
      isLoading ==> sendDisabled
    }

    /** `isLoading = false` at load; the button's first state comes from the page markup. */
    constructor (initiallyDisabled: bool)
      ensures Valid()
      ensures !isLoading && inputValue == [] && sendDisabled == initiallyDisabled && messages == []
    {
      isLoading := false;
      inputValue := [];
      sendDisabled := initiallyDisabled;
      messages := [];
    }

    /** The `input` handler: the button is disabled exactly when the trimmed text is empty or a
        request is in flight. */
    method OnInput(value: string)
      requires Valid()
      modifies this
      ensures Valid()
      ensures inputValue == value && sendDisabled == (Strip(value, JsIsSpace) == [] || isLoading)
      ensures isLoading == old(isLoading) && messages == old(messages)
    {
      inputValue := value;
      sendDisabled := Strip(value, JsIsSpace) == [] || isLoading;
    }

    /** `sendMessage` up to the request: nothing happens for an empty trimmed text or while
        loading; otherwise the user's message is shown, the box cleared, the button disabled,
        `isLoading` set, and the trimmed text is what is posted. */
    method SendMessage() returns (posted: Option<string>)
      requires Valid()
      modifies this
      ensures Valid()
      ensures var message := Strip(old(inputValue), JsIsSpace);
              if message == [] || old(isLoading) then
                posted == None && isLoading == old(isLoading) && inputValue == old(inputValue)
                && sendDisabled == old(sendDisabled) && messages == old(messages)
              else
                posted == Some(message) && isLoading && sendDisabled && inputValue == []
                && messages == old(messages) + [Message(message, User)]
    {
      var message := Strip(inputValue, JsIsSpace);
      if message == [] || isLoading {
        return None;
      }
      messages := messages + [Message(message, User)];
      inputValue := [];
      sendDisabled := true;
      isLoading := true;
      posted := Some(message);
    }

    /** The rest of `sendMessage` once the request settles: the answer or the error text is
        shown, and the `finally` block always clears `isLoading` and enables the button. */
    method Complete(result: Result)
      requires Valid()
      modifies this
      ensures Valid()
      ensures messages == old(messages) + [Message(ReplyText(result), Ai)]
      ensures !isLoading && !sendDisabled && inputValue == old(inputValue)
    {
      messages := messages + [Message(ReplyText(result), Ai)];
      isLoading := false;
      sendDisabled := false;
    }

    /** `askQuestion`: the box takes the question and `sendMessage` runs; the input handler is
        not fired, so the button keeps its state when nothing is sent. */
    method AskQuestion(question: string) returns (posted: Option<string>)
      requires Valid()
      modifies this
      ensures Valid()
      ensures var message := Strip(question, JsIsSpace);
              if message == [] || old(isLoading) then
                posted == None && isLoading == old(isLoading) && inputValue == question
                && sendDisabled == old(sendDisabled) && messages == old(messages)
              else
                posted == Some(message) && isLoading && sendDisabled && inputValue == []
                && messages == old(messages) + [Message(message, User)]
    {
      inputValue := question;
      posted := SendMessage();
    }
  }

  /** A full exchange from an idle page: one user message and one reply are added and the page
      is idle again, whatever the request gave back. */
  method Exchange(page: ChatPage, result: Result) returns (posted: Option<string>)
    requires page.Valid() && !page.isLoading && Strip(page.inputValue, JsIsSpace) != []
    modifies page
    ensures page.Valid() && !page.isLoading && !page.sendDisabled && page.inputValue == []
    ensures posted == Some(Strip(old(page.inputValue), JsIsSpace))
    ensures page.messages == old(page.messages) + [Message(posted.value, User), Message(ReplyText(result), Ai)]
  {
    posted := page.SendMessage();
    page.Complete(result);
  }
}
