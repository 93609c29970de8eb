/**
 The fixture's event-stream printer and the stream interpretation of section
 9.2.6 of the WHATWG HTML standard, which undoes it. Streams are decoded text;
 the printer's comments are ASCII, so their characters are their bytes.
 */
module ServerSentEvents {
  import opened Sequences

  datatype Profile = CommentFlood | CarriageReturnComments | PlainProfile

  const EVENT_LIMIT := 8 * 1024 * 1024
  const COMMENT_LINE := 2048
  const COMMENT_COUNT := EVENT_LIMIT / COMMENT_LINE + 1

  function Repeat(s: string, n: nat): string {
    if n == 0 then "" else s + Repeat(s, n - 1)
  }

  /** The comment line of a profile, with its terminator; nothing in the plain profile. */
  function Comment(p: Profile): string {
    match p
    case CommentFlood => ": reviewer keepalive " + Repeat("x", COMMENT_LINE - 22) + "\r"
    case CarriageReturnComments => ": reviewer keepalive\r"
    case PlainProfile => ""
  }

  function CommentRepeats(p: Profile): nat {
    match p
    case CommentFlood => COMMENT_COUNT
    case CarriageReturnComments => 1
    case PlainProfile => 0
  }

  function Terminator(p: Profile): char {
    if p == PlainProfile then '\n' else '\r'
  }

  function EncodeMessages(p: Profile, texts: seq<string>): string {
    if texts == [] then ""
    else "data: " + texts[0] + [Terminator(p)] + [Terminator(p)] + EncodeMessages(p, texts[1..])
  }

  /** `_encode_sse_messages` on the JSON texts of the messages. */
  function Encode(p: Profile, texts: seq<string>): string {
    Repeat(Comment(p), CommentRepeats(p)) + EncodeMessages(p, texts)
  }

  // ---------------------------------------------------------------- the standard's interpretation

  predicate IsBreak(c: char) {
    c == '\r' || c == '\n'
  }

  predicate OneLine(s: string) {
    forall i :: 0 <= i < |s| ==> !IsBreak(s[i])
  }

  function LineEnd(s: string): (n: nat)
    ensures n <= |s| && OneLine(s[..n]) && (n < |s| ==> IsBreak(s[n]))
  {
    if s == "" || IsBreak(s[0]) then 0 else
      var n := LineEnd(s[1..]);
      assert s[..n + 1] == [s[0]] + s[1..][..n];
      n + 1
  }

  /** The terminated lines of a stream: CRLF, LF and CR each end a line. */
  function Lines(s: string): seq<string>
    decreases |s|
  {
    var n := LineEnd(s);
    if n == |s| then []
    else if s[n] == '\r' && n + 1 < |s| && s[n + 1] == '\n' then [s[..n]] + Lines(s[n + 2..])
    else [s[..n]] + Lines(s[n + 1..])
  }

  datatype Event = Event(eventType: string, data: string, lastId: string)

  datatype Buffers = Buffers(eventType: string, data: string, lastId: string)

  function ColonAt(line: string): (n: nat)
    ensures n <= |line| && (n < |line| ==> line[n] == ':') && forall i :: 0 <= i < n ==> line[i] != ':'
  {
    if line == "" || line[0] == ':' then 0 else ColonAt(line[1..]) + 1
  }

  function FieldValue(line: string): string {
    var c := ColonAt(line);
    var rest := if c < |line| then line[c + 1..] else "";
    if rest != "" && rest[0] == ' ' then rest[1..] else rest
  }

  /** Processing a field; `retry` changes only the reconnection time, and unknown fields nothing. */
  function Field(b: Buffers, name: string, value: string): Buffers {
    if name == "event" then b.(eventType := value)
    else if name == "data" then b.(data := b.data + value + "\n")
    else if name == "id" then (if '\0' in value then b else b.(lastId := value))
    else b
  }

  function Dispatch(b: Buffers): seq<Event> {
    if b.data == "" then [] else [Event(b.eventType, b.data[..|b.data| - 1], b.lastId)]
  }

  function Interpret(lines: seq<string>, b: Buffers): seq<Event> {
    if lines == [] then []
    else if lines[0] == "" then Dispatch(b) + Interpret(lines[1..], Buffers("", "", b.lastId))
    else if lines[0][0] == ':' then Interpret(lines[1..], b)
    else Interpret(lines[1..], Field(b, lines[0][..ColonAt(lines[0])], FieldValue(lines[0])))
  }

  const EMPTY: Buffers := Buffers("", "", "")

  /** All events of a stream, after an optional leading byte order mark. */
  function Events(stream: string): seq<Event> {
    Interpret(Lines(if stream != "" && stream[0] == '\U{FEFF}' then stream[1..] else stream), EMPTY)
  }

  // ---------------------------------------------------------------- printing is undone

  lemma {:induction false} LineEndIs(line: string, rest: string)
    requires OneLine(line) && (rest == "" || IsBreak(rest[0]))
    ensures LineEnd(line + rest) == |line|
  {
    var s := line + rest;
    if line != "" {
      assert s[0] == line[0] && s[1..] == line[1..] + rest;
      LineEndIs(line[1..], rest);
    } else {
      assert s == rest;
    }
  }

  /** A terminated line is read off the front of a stream. */
  lemma FirstLine(line: string, end: char, rest: string)
    requires OneLine(line) && IsBreak(end)
    requires end == '\r' && rest != "" ==> rest[0] != '\n'
    ensures Lines(line + [end] + rest) == [line] + Lines(rest)
  {
    var s := line + [end] + rest;
    assert s == line + ([end] + rest);
    LineEndIs(line, [end] + rest);
    assert s[|line|] == end && s[..|line|] == line && s[|line| + 1..] == rest;
  }

  /** What ends a line before `rest`: LF, CRLF, or a CR that no LF follows. */
  predicate EndsLine(end: string, rest: string) {
    end == "\n" || end == "\r\n" || (end == "\r" && (rest == "" || rest[0] != '\n'))
  }

  /** Each of the three line ends terminates exactly the line before it. */
  lemma AnyLineEnd(line: string, end: string, rest: string)
    requires OneLine(line) && EndsLine(end, rest)
    ensures Lines(line + end + rest) == [line] + Lines(rest)
  {
    if end == "\r\n" {
      var s := line + end + rest;
      assert s == line + ("\r\n" + rest);
      LineEndIs(line, "\r\n" + rest);
      assert s[|line|] == '\r' && s[|line| + 1] == '\n' && s[..|line|] == line && s[|line| + 2..] == rest;
    } else {
      FirstLine(line, end[0], rest);
    }
  }

  function Plainly(texts: seq<string>): seq<Event> {
    seq(|texts|, k requires 0 <= k < |texts| => Event("", texts[k], ""))
  }

  lemma DataLine(text: string)
    ensures var line := "data: " + text;
            line[0] == 'd' && ColonAt(line) == 4 && line[..4] == "data" && FieldValue(line) == text
    ensures OneLine(text) ==> OneLine("data: " + text)
  {
    var line := "data: " + text;
    assert line[0] == 'd' && line[1] == 'a' && line[2] == 't' && line[3] == 'a' && line[4] == ':' && line[5] == ' ';
    assert line[5..] == " " + text;
    assert (" " + text)[1..] == text;
  }

  lemma OneMessage(text: string, lines: seq<string>)
    ensures Interpret(["data: " + text, ""] + lines, EMPTY) == [Event("", text, "")] + Interpret(lines, EMPTY)
  {
    DataLine(text);
    var line := "data: " + text;
    var all := [line, ""] + lines;
    assert all[0] == line && all[1..] == [""] + lines;
    assert ([""] + lines)[0] == "" && ([""] + lines)[1..] == lines;
    var b := Field(EMPTY, "data", text);
    assert b.data == text + "\n";
    assert b.data[..|b.data| - 1] == text;
  }

  lemma BlankLine(end: char, rest: string)
    requires IsBreak(end) && (end == '\r' && rest != "" ==> rest[0] != '\n')
    ensures Lines([end] + rest) == [""] + Lines(rest)
  {
    FirstLine("", end, rest);
    assert "" + [end] + rest == [end] + rest;
  }

  lemma LineAndBlank(line: string, end: char, rest: string, stream: string)
    requires OneLine(line) && IsBreak(end) && (rest == "" || rest[0] != '\n')
    requires stream == line + [end] + ([end] + rest)
    ensures Lines(stream) == [line, ""] + Lines(rest)
  {
    var tail := [end] + rest;
    BlankLine(end, rest);
    FirstLine(line, end, tail);
  }

  function MessageLines(texts: seq<string>): seq<string> {
    if texts == [] then [] else ["data: " + texts[0], ""] + MessageLines(texts[1..])
  }

  lemma {:induction false} LinesOfMessages(p: Profile, texts: seq<string>)
    requires forall t :: t in texts ==> OneLine(t)
    ensures Lines(EncodeMessages(p, texts)) == MessageLines(texts)
    ensures EncodeMessages(p, texts) == "" || EncodeMessages(p, texts)[0] == 'd'
  {
    if texts != [] {
      var text, rest, end := texts[0], EncodeMessages(p, texts[1..]), Terminator(p);
      assert text in texts && forall t :: t in texts[1..] ==> t in texts;
      LinesOfMessages(p, texts[1..]);
      DataLine(text);
      EncodeUnfold(p, texts);
      LineAndBlank("data: " + text, end, rest, EncodeMessages(p, texts));
    }
  }

  lemma EncodeUnfold(p: Profile, texts: seq<string>)
    requires texts != []
    ensures EncodeMessages(p, texts)
         == ("data: " + texts[0]) + [Terminator(p)] + ([Terminator(p)] + EncodeMessages(p, texts[1..]))
    ensures EncodeMessages(p, texts)[0] == 'd'
  {
  }

  lemma {:induction false} InterpretMessages(texts: seq<string>)
    ensures Interpret(MessageLines(texts), EMPTY) == Plainly(texts)
  {
    if texts != [] {
      InterpretMessages(texts[1..]);
      OneMessage(texts[0], MessageLines(texts[1..]));
      assert Plainly(texts) == [Event("", texts[0], "")] + Plainly(texts[1..]);
    }
  }

  lemma {:induction false} RepeatIsOneLine(c: char, n: nat)
    requires !IsBreak(c)
    ensures |Repeat([c], n)| == n && OneLine(Repeat([c], n))
  {
    if n > 0 {
      RepeatIsOneLine(c, n - 1);
    }
  }

  /** The line of a comment profile, without its terminator. */
  function CommentText(p: Profile): string {
    if p == CommentFlood then ": reviewer keepalive " + Repeat("x", COMMENT_LINE - 22) else ": reviewer keepalive"
  }

  lemma CommentShape(p: Profile)
    requires p != PlainProfile
    ensures Comment(p) == CommentText(p) + "\r" && OneLine(CommentText(p)) && CommentText(p)[0] == ':'
    ensures p == CommentFlood ==> |Comment(p)| == COMMENT_LINE
  {
    RepeatIsOneLine('x', COMMENT_LINE - 22);
    assert OneLine(": reviewer keepalive ") && |": reviewer keepalive "| == 21;
    assert OneLine(": reviewer keepalive");
  }

  function Copies(line: string, n: nat): seq<string> {
    if n == 0 then [] else [line] + Copies(line, n - 1)
  }

  lemma {:induction false} LinesOfComments(line: string, n: nat, rest: string)
    requires OneLine(line) && line != "" && line[0] == ':' && (rest == "" || rest[0] != '\n')
    ensures Lines(Repeat(line + "\r", n) + rest) == Copies(line, n) + Lines(rest)
  {
    RepeatUnfold(line, n, rest);
    if n > 0 {
      LinesOfComments(line, n - 1, rest);
      RepeatStarts(line, n - 1, rest);
      OneMoreLine(line, Repeat(line + "\r", n - 1) + rest, Copies(line, n - 1) + Lines(rest));
      Associate([line], Copies(line, n - 1), Lines(rest));
    }
  }

  lemma OneMoreLine(line: string, more: string, lines: seq<string>)
    requires OneLine(line) && (more == "" || more[0] != '\n') && Lines(more) == lines
    ensures Lines(line + ['\r'] + more) == [line] + lines
  {
    FirstLine(line, '\r', more);
  }

  lemma RepeatStarts(line: string, n: nat, rest: string)
    requires line != "" && line[0] == ':' && (rest == "" || rest[0] != '\n')
    ensures var all := Repeat(line + "\r", n) + rest; all == "" || all[0] == ':' || (rest != "" && all[0] == rest[0])
  {
  }

  lemma RepeatUnfold(line: string, n: nat, rest: string)
    ensures n == 0 ==> Repeat(line + "\r", n) + rest == rest
    ensures n > 0 ==> Repeat(line + "\r", n) + rest == line + ['\r'] + (Repeat(line + "\r", n - 1) + rest)
  {
  }

  /** Comment lines in front of a stream add nothing to its events. */
  lemma {:induction false} CommentsIgnored(line: string, n: nat, lines: seq<string>, b: Buffers)
    requires line != "" && line[0] == ':'
    ensures Interpret(Copies(line, n) + lines, b) == Interpret(lines, b)
  {
    var all := Copies(line, n) + lines;
    if n == 0 {
      assert all == lines;
    } else {
      CommentsIgnored(line, n - 1, lines, b);
      assert all[0] == line && all[1..] == Copies(line, n - 1) + lines;
    }
  }

  /** Interpreting a printed stream gives back exactly the printed texts, in order, in every profile. */
  lemma PrintingIsUndone(p: Profile, texts: seq<string>)
    requires forall t :: t in texts ==> OneLine(t)
    ensures Events(Encode(p, texts)) == Plainly(texts)
  {
    var body := EncodeMessages(p, texts);
    LinesOfMessages(p, texts);
    InterpretMessages(texts);
    if p == PlainProfile {
      assert Encode(p, texts) == body;
    } else {
      CommentShape(p);
      LinesOfComments(CommentText(p), CommentRepeats(p), body);
      CommentsIgnored(CommentText(p), CommentRepeats(p), Lines(body), EMPTY);
    }
  }

  lemma {:induction false} RepeatLength(s: string, n: nat)
    ensures |Repeat(s, n)| == |s| * n
  {
    if n > 0 {
      RepeatLength(s, n - 1);
    }
  }

  /** The flood is made of whole 2048-byte comment lines and is larger than the 8 MiB event limit. */
  lemma FloodExceedsLimit(texts: seq<string>)
    ensures |Comment(CommentFlood)| == COMMENT_LINE
    ensures Repeat(Comment(CommentFlood), CommentRepeats(CommentFlood)) <= Encode(CommentFlood, texts)
    ensures |Repeat(Comment(CommentFlood), CommentRepeats(CommentFlood))| > EVENT_LIMIT
  {
    var p := CommentFlood;
    CommentShape(p);
    RepeatLength(Comment(p), CommentRepeats(p));
  }
}
