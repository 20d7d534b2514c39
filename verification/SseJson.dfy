// Decoding framed events into JSON objects, accepting server-sent events (section 9.2.6 of
// the WHATWG HTML Living Standard) as well as bare JSON. JSON parsing itself is a parameter.
module SseJson {
  import opened Text
  import opened EventStream

  /** `line.partition(":")`. */
  datatype Field = Field(name: string, separated: bool, value: string)

  function Partition(line: string): Field {
    if line == "" then Field("", false, "")
    else if line[0] == ':' then Field("", true, line[1..])
    else var rest := Partition(line[1..]); rest.(name := [line[0]] + rest.name)
  }

  /** `s.split("\n")`. */
  function Lines(s: string): (lines: seq<string>)
    ensures lines != []
  {
    if s == "" then [""]
    else if s[0] == '\n' then [""] + Lines(s[1..])
    else PutFirst(s[0], Lines(s[1..]))
  }

  /** The values of the `data` fields, one leading space removed. */
  function DataLines(lines: seq<string>): (data: seq<string>) {
    if lines == [] then []
    else
      var field := Partition(lines[0]);
      (if field.name == "data" then [RemovePrefix(field.value, " ")] else []) + DataLines(lines[1..])
  }

  predicate IsSseOnly(field: Field) {
    field.name in {"event", "id", "retry"} || (field.name == "" && field.separated)
  }

  /** `"\n".join(lines)`. */
  function JoinLines(lines: seq<string>): string {
    if lines == [] then "" else if |lines| == 1 then lines[0] else lines[0] + "\n" + JoinLines(lines[1..])
  }

  datatype Verdict<+J> = Skip | Stop | Invalid | Yield(chunk: J)

  /** What one event means for the stream. */
  function Judge<J>(rawEvent: string, isSse: bool, parse: string -> Option<J>): Verdict<J> {
    var event := Strip(rawEvent);
    if event == "" then Skip
    else
      var payload := LStrip(RemovePrefix(event, "data:"));
      if payload == "[DONE]" then Stop
      else match parse(payload)
        case Some(chunk) => Yield(chunk)
        case None =>
          var lines := Lines(event);
          var data := DataLines(lines);
          if data == [] then
            if isSse || exists i :: 0 <= i < |lines| && IsSseOnly(Partition(lines[i])) then Skip else Invalid
          else if Strip(JoinLines(data)) == "[DONE]" then Stop
          else match parse(JoinLines(data))
            case Some(chunk) => Yield(chunk)
            case None => Invalid
  }

  datatype Ending = Eof | Done | Failed
  datatype Decoded<+J> = Decoded(chunks: seq<J>, ending: Ending)

  function DecodeEvents<J>(events: seq<string>, isSse: bool, parse: string -> Option<J>): Decoded<J> {
    if events == [] then Decoded([], Eof)
    else match Judge(events[0], isSse, parse)
      case Skip => DecodeEvents(events[1..], isSse, parse)
      case Stop => Decoded([], Done)
      case Invalid => Decoded([], Failed)
      case Yield(chunk) =>
        Prepend([chunk], DecodeEvents(events[1..], isSse, parse))
  }

  function Prepend<J>(chunks: seq<J>, rest: Decoded<J>): Decoded<J> {
    rest.(chunks := chunks + rest.chunks)
  }

  lemma PrependTwice<J>(a: seq<J>, b: seq<J>, rest: Decoded<J>)
    ensures Prepend(a, Prepend(b, rest)) == Prepend(a + b, rest)
  {
    assert a + (b + rest.chunks) == a + b + rest.chunks;
  }

  /** `_iter_stream_json` over the framed events; the generator's yields are `chunks`. */
  method IterStreamJson<J>(events: seq<string>, isSse: bool, parse: string -> Option<J>)
    returns (chunks: seq<J>, ending: Ending)
    ensures Decoded(chunks, ending) == DecodeEvents(events, isSse, parse)
  {
    hide Judge;
    chunks, ending := [], Eof;
    for i := 0 to |events|
      invariant ending == Eof
      invariant DecodeEvents(events, isSse, parse) == Prepend(chunks, DecodeEvents(events[i..], isSse, parse))
    {
      assert events[i..][0] == events[i] && events[i..][1..] == events[i + 1..];
      match Judge(events[i], isSse, parse) {
        case Skip =>
        case Stop =>
          ending := Done;
          return;
        case Invalid =>
          ending := Failed;
          return;
        case Yield(chunk) =>
          PrependTwice(chunks, [chunk], DecodeEvents(events[i + 1..], isSse, parse));
          chunks := chunks + [chunk];
      }
    }
  }

  /** The whole decode of a response body, however the network cut it. */
  method DecodeBody<J>(pieces: seq<string>, last: string, isSse: bool, parse: string -> Option<J>)
    returns (chunks: seq<J>, ending: Ending)
    ensures Decoded(chunks, ending)
         == DecodeEvents(Split(Translate(Concat(pieces) + last)), isSse, parse)
  {
    var events := IterStreamEvents(pieces, last);
    chunks, ending := IterStreamJson(events, isSse, parse);
  }

  // ---- A printer for event streams, and the proof that decoding undoes it.

  datatype LineEnd = Lf | CrLf | Cr

  function EndText(end: LineEnd): string {
    match end case Lf => "\n" case CrLf => "\r\n" case Cr => "\r"
  }

  /** An event to send: an object's JSON text on one line, comment lines such as keep-alives,
      or any lines whose data fields together are an object's JSON text. */
  datatype Item<+J> =
    | Object(payload: string, chunk: J, end: LineEnd)
    | Comment(lines: seq<string>, end: LineEnd)
    | Fields(lines: seq<string>, chunk: J, end: LineEnd)

  predicate SingleLine(s: string) {
    '\r' !in s && '\n' !in s
  }

  ghost predicate Printable<J>(item: Item<J>, parse: string -> Option<J>) {
    match item
    case Object(payload, chunk, _) =>
      SingleLine(payload) && IsTrimmed(payload) && payload != "[DONE]" && parse(payload) == Some(chunk)
    case Comment(lines, _) =>
      lines != [] && forall i :: 0 <= i < |lines| ==> SingleLine(lines[i])
    case Fields(lines, chunk, _) => IsBlock(lines) && NeedsFields(lines, parse) && FieldsGive(lines, chunk, parse)
  }

  /** Lines of an event, none of them blank, with nothing to strip at either end. */
  predicate IsBlock(lines: seq<string>) {
    && lines != []
    && (forall i :: 0 <= i < |lines| ==> SingleLine(lines[i]) && lines[i] != "")
    && !IsSpace(lines[0][0])
    && !IsSpace(lines[|lines| - 1][|lines[|lines| - 1]| - 1])
  }

  /** What is left of the event when only a leading `data:` is taken off is not JSON. */
  predicate NeedsFields<J>(lines: seq<string>, parse: string -> Option<J>) {
    var raw := LStrip(RemovePrefix(JoinLines(lines), "data:"));
    raw != "[DONE]" && parse(raw).None?
  }

  ghost predicate FieldsGive<J>(lines: seq<string>, chunk: J, parse: string -> Option<J>) {
    var data := DataLines(lines);
    data != [] && Strip(JoinLines(data)) != "[DONE]" && parse(JoinLines(data)) == Some(chunk)
  }

  function PrintLines(lines: seq<string>, end: LineEnd): string {
    if lines == [] then "" else lines[0] + EndText(end) + PrintLines(lines[1..], end)
  }

  function PrintComments(lines: seq<string>, end: LineEnd): string {
    if lines == [] then "" else ":" + lines[0] + EndText(end) + PrintComments(lines[1..], end)
  }

  function Print<J>(item: Item<J>): string {
    (match item
     case Object(payload, _, end) => "data: " + payload + EndText(end)
     case Comment(lines, end) => PrintComments(lines, end)
     case Fields(lines, _, end) => PrintLines(lines, end))
    + EndText(item.end)
  }

  function PrintAll<J>(items: seq<Item<J>>): string {
    if items == [] then "" else Print(items[0]) + PrintAll(items[1..])
  }

  function ObjectOf<J>(item: Item<J>): seq<J> {
    if item.Comment? then [] else [item.chunk]
  }

  function Objects<J>(items: seq<Item<J>>): seq<J> {
    if items == [] then [] else ObjectOf(items[0]) + Objects(items[1..])
  }

  function PrintDone(end: LineEnd): string {
    "data: " + "[DONE]" + EndText(end) + EndText(end)
  }

  // Translation of printed text.

  /** A CR at the end of a line swallows an LF that happens to follow. */
  function AfterEnd(end: LineEnd, rest: string): string {
    if end == Cr && rest != "" && rest[0] == '\n' then rest[1..] else rest
  }

  lemma TranslateEnd(end: LineEnd, rest: string)
    ensures Translate(EndText(end) + rest) == "\n" + Translate(AfterEnd(end, rest))
  {
    var s := EndText(end) + rest;
    if end == CrLf {
      assert s[2..] == rest;
    } else {
      assert s[1..] == rest;
      if AfterEnd(end, rest) != rest {
        assert s[2..] == rest[1..];
      }
    }
  }

  lemma {:induction false} TranslateLine(line: string)
    requires '\r' !in line
    ensures Translate(line) == line
  {
    if line != "" {
      TranslateLine(line[1..]);
      assert [line[0]] + line[1..] == line;
    }
  }

  lemma TranslateTerminated(line: string, end: LineEnd, rest: string)
    requires '\r' !in line
    ensures Translate(line + EndText(end) + rest) == line + "\n" + Translate(AfterEnd(end, rest))
  {
    hide Translate;
    var after, out := EndText(end) + rest, Translate(AfterEnd(end, rest));
    assert line + EndText(end) + rest == line + after;
    TranslateAppend(line, after);
    TranslateLine(line);
    TranslateEnd(end, rest);
    assert line + ("\n" + out) == line + "\n" + out;
  }

  /** A line and the blank line closing its event. */
  lemma TranslateEvent(line: string, end: LineEnd, rest: string)
    requires '\r' !in line
    ensures Translate(line + EndText(end) + EndText(end) + rest) == line + "\n\n" + Translate(AfterEnd(end, rest))
  {
    hide Translate;
    var closing := EndText(end) + rest;
    assert line + EndText(end) + EndText(end) + rest == line + EndText(end) + closing;
    TranslateTerminated(line, end, closing);
    assert AfterEnd(end, closing) == closing;
    TranslateEnd(end, rest);
    assert line + "\n" + ("\n" + Translate(AfterEnd(end, rest))) == line + "\n\n" + Translate(AfterEnd(end, rest));
  }

  /** The comment lines as the decoder sees them. */
  function CommentText(lines: seq<string>): string
    requires lines != []
  {
    ":" + lines[0] + if |lines| == 1 then "" else "\n" + CommentText(lines[1..])
  }

  lemma {:induction false} TranslateComments(lines: seq<string>, end: LineEnd, rest: string)
    requires lines != [] && forall i :: 0 <= i < |lines| ==> SingleLine(lines[i])
    ensures Translate(PrintComments(lines, end) + EndText(end) + rest)
         == CommentText(lines) + "\n\n" + Translate(AfterEnd(end, rest))
  {
    hide Translate, AfterEnd, EndText;
    var line, e, after := ":" + lines[0], EndText(end), PrintComments(lines[1..], end);
    if |lines| == 1 {
      TranslateEvent(line, end, rest);
      assert after == "" && CommentText(lines) == line;
      assert line + e + after + e + rest == line + e + e + rest;
    } else {
      var text, more := CommentText(lines[1..]), after + e + rest;
      assert after[0] == ':';
      TranslateTerminated(line, end, more);
      assert AfterEnd(end, more) == more by { AfterEndKeeps(end, more); }
      TranslateComments(lines[1..], end, rest);
      Regroup(line, e, after, rest, text, Translate(AfterEnd(end, rest)));
    }
  }

  lemma {:induction false} TranslateLines(lines: seq<string>, end: LineEnd, rest: string)
    requires lines != [] && forall i :: 0 <= i < |lines| ==> SingleLine(lines[i]) && lines[i] != ""
    ensures Translate(PrintLines(lines, end) + EndText(end) + rest)
         == JoinLines(lines) + "\n\n" + Translate(AfterEnd(end, rest))
  {
    hide Translate, AfterEnd, EndText;
    var line, e, after := lines[0], EndText(end), PrintLines(lines[1..], end);
    if |lines| == 1 {
      TranslateEvent(line, end, rest);
      assert after == "" && JoinLines(lines) == line;
      assert line + e + after + e + rest == line + e + e + rest;
    } else {
      var text, more := JoinLines(lines[1..]), after + e + rest;
      assert after[0] == lines[1][0];
      TranslateTerminated(line, end, more);
      assert AfterEnd(end, more) == more by { AfterEndKeeps(end, more); }
      TranslateLines(lines[1..], end, rest);
      Regroup(line, e, after, rest, text, Translate(AfterEnd(end, rest)));
      assert JoinLines(lines) == line + ("\n" + text);
    }
  }

  lemma AfterEndKeeps(end: LineEnd, rest: string)
    requires rest == "" || rest[0] != '\n'
    ensures AfterEnd(end, rest) == rest
  {
  }

  lemma Regroup(line: string, e: string, after: string, rest: string, text: string, out: string)
    ensures line + e + after + e + rest == line + e + (after + e + rest)
    ensures (line + ("\n" + text)) + "\n\n" + out == line + "\n" + (text + "\n\n" + out)
  {
    assert (line + ("\n" + text)) + "\n\n" + out == line + "\n" + text + "\n\n" + out;
  }

  // How the decoder judges printed events.

  lemma StripTrimmed(s: string)
    requires IsTrimmed(s)
    ensures Strip(s) == s
  {
  }

  lemma JudgeData<J>(payload: string, isSse: bool, parse: string -> Option<J>)
    requires IsTrimmed(payload)
    ensures payload == "[DONE]" ==> Judge("data: " + payload, isSse, parse) == Stop
    ensures payload != "[DONE]" && parse(payload).Some? ==>
      Judge("data: " + payload, isSse, parse) == Yield(parse(payload).value)
  {
    hide *;
    DataEvent(payload);
    JudgePayload("data: " + payload, payload, isSse, parse);
  }

  lemma JudgePayload<J>(rawEvent: string, payload: string, isSse: bool, parse: string -> Option<J>)
    ensures Strip(rawEvent) != "" && LStrip(RemovePrefix(Strip(rawEvent), "data:")) == payload ==>
      && (payload == "[DONE]" ==> Judge(rawEvent, isSse, parse) == Stop)
      && (payload != "[DONE]" && parse(payload).Some? ==>
            Judge(rawEvent, isSse, parse) == Yield(parse(payload).value))
  {
  }

  lemma DataEvent(payload: string)
    requires IsTrimmed(payload)
    ensures var event := "data: " + payload;
      Strip(event) == event != "" && LStrip(RemovePrefix(event, "data:")) == payload
  {
    var event := "data: " + payload;
    assert event[|event| - 1] == payload[|payload| - 1];
    StripTrimmed(event);
    var spaced := " " + payload;
    assert event == "data:" + spaced;
    assert RemovePrefix(event, "data:") == spaced;
    assert spaced[1..] == payload;
    assert LStrip(spaced) == LStrip(payload) == payload;
  }

  /** Text made of comment lines only: every line starts with a colon. */
  predicate AllComments(s: string) {
    && s != ""
    && s[0] == ':'
    && (forall i :: 0 <= i < |s| && s[i] == '\n' ==> i + 1 < |s| && s[i + 1] == ':')
  }

  lemma {:induction false} CommentTextAllComments(lines: seq<string>)
    requires lines != [] && forall i :: 0 <= i < |lines| ==> SingleLine(lines[i])
    ensures AllComments(CommentText(lines))
    ensures '\r' !in CommentText(lines)
  {
    var s, line := CommentText(lines), ":" + lines[0];
    if |lines| > 1 {
      CommentTextAllComments(lines[1..]);
      var rest := CommentText(lines[1..]);
      assert s == line + "\n" + rest;
      forall i | 0 <= i < |s| && s[i] == '\n'
        ensures i + 1 < |s| && s[i + 1] == ':'
      {
        if i > |line| {
          assert s[i] == rest[i - |line| - 1];
          assert s[i + 1] == rest[i - |line|];
        } else {
          assert s[i + 1] == rest[0];
        }
      }
    } else {
      assert s == line;
    }
  }

  lemma AllCommentsHasNoBlank(s: string)
    requires AllComments(s)
    ensures !HasBlankLine(s) && !EndsWith(s, '\n')
  {
  }

  lemma {:induction false} CommentLines(s: string)
    requires AllComments(s)
    ensures forall i :: 0 <= i < |Lines(s)| ==> Lines(s)[i] != "" && Lines(s)[i][0] == ':'
    decreases |s|
  {
    if |s| > 1 {
      var n := FirstLf(s, 1);
      if n < |s| {
        assert AllComments(s[n + 1..]) by {
          var t := s[n + 1..];
          forall i | 0 <= i < |t| && t[i] == '\n'
            ensures i + 1 < |t| && t[i + 1] == ':'
          {
            assert s[n + 1 + i] == '\n';
          }
        }
        CommentLines(s[n + 1..]);
      }
      LinesAt(s[..n], if n < |s| then s[n + 1..] else "", n < |s|);
      assert s == s[..n] + if n < |s| then "\n" + s[n + 1..] else "";
    }
  }

  function FirstLf(s: string, from: nat): (n: nat)
    requires from <= |s|
    ensures from <= n <= |s|
    ensures '\n' !in s[from..n]
    ensures n < |s| ==> s[n] == '\n'
    decreases |s| - from
  {
    if from == |s| || s[from] == '\n' then from
    else
      var n := FirstLf(s, from + 1);
      assert s[from..n] == [s[from]] + s[from + 1..n];
      n
  }

  lemma {:induction false} LinesAt(line: string, rest: string, more: bool)
    requires '\n' !in line
    ensures Lines(line + if more then "\n" + rest else "") == [line] + if more then Lines(rest) else []
  {
    var tail := if more then "\n" + rest else "";
    if line == "" {
      assert line + tail == tail;
      if more {
        assert tail[1..] == rest;
      }
    } else {
      assert (line + tail)[1..] == line[1..] + tail;
      LinesAt(line[1..], rest, more);
      assert [line[0]] + line[1..] == line;
      assert PutFirst(line[0], [line[1..]] + if more then Lines(rest) else [])
          == [line] + if more then Lines(rest) else [];
    }
  }

  lemma {:induction false} NoDataLines(lines: seq<string>)
    requires forall i :: 0 <= i < |lines| ==> lines[i] != "" && lines[i][0] == ':'
    ensures DataLines(lines) == []
  {
    if lines != [] {
      NoDataLines(lines[1..]);
      assert Partition(lines[0]).name == "";
    }
  }

  /** No JSON object starts with a colon. */
  ghost predicate RejectsColon<J>(parse: string -> Option<J>) {
    forall s :: StartsWith(s, ":") ==> parse(s).None?
  }

  lemma RStripKeepsHead(s: string)
    requires s != "" && !IsSpace(s[0])
    ensures RStrip(s) != ""
  {
  }

  lemma StripAllComments(s: string)
    requires AllComments(s)
    ensures AllComments(Strip(s))
  {
    var t := RStrip(s);
    assert LStrip(s) == s;
    RStripKeepsHead(s);
    forall i | 0 <= i < |t| && t[i] == '\n'
      ensures i + 1 < |t| && t[i + 1] == ':'
    {
      assert s[i] == '\n' && IsSpace(t[i]);
    }
  }

  lemma JudgeComments<J>(s: string, isSse: bool, parse: string -> Option<J>)
    requires AllComments(s) && RejectsColon(parse)
    ensures Judge(s, isSse, parse) == Skip
  {
    hide Strip, Lines, DataLines, Partition, JoinLines;
    var event := Strip(s);
    StripAllComments(s);
    assert RemovePrefix(event, "data:") == event && LStrip(event) == event;
    assert StartsWith(event, ":");
    CommentLines(event);
    NoDataLines(Lines(event));
    ColonIsSseOnly(Lines(event)[0]);
  }

  lemma ColonIsSseOnly(line: string)
    requires line != "" && line[0] == ':'
    ensures IsSseOnly(Partition(line))
  {
  }

  // Events whose data is spread over fields.

  lemma {:induction false} LinesOfJoin(lines: seq<string>)
    requires lines != [] && forall i :: 0 <= i < |lines| ==> '\n' !in lines[i]
    ensures Lines(JoinLines(lines)) == lines
  {
    var more := |lines| > 1;
    if more {
      LinesOfJoin(lines[1..]);
    }
    LinesAt(lines[0], if more then JoinLines(lines[1..]) else "", more);
    assert JoinLines(lines) == lines[0] + if more then "\n" + JoinLines(lines[1..]) else "";
    assert lines == [lines[0]] + if more then Lines(JoinLines(lines[1..])) else [];
  }

  lemma {:induction false} JoinOfLines(s: string)
    ensures JoinLines(Lines(s)) == s
    ensures forall line <- Lines(s) :: '\n' !in line
  {
    if s != "" {
      JoinOfLines(s[1..]);
      var rest := Lines(s[1..]);
      if s[0] == '\n' {
        assert ([""] + rest)[1..] == rest;
        assert JoinLines([""] + rest) == "" + "\n" + JoinLines(rest);
        assert s == "\n" + s[1..];
      } else {
        var lines := PutFirst(s[0], rest);
        assert lines[1..] == rest[1..] && lines[0] == [s[0]] + rest[0];
        assert JoinLines(lines) == [s[0]] + JoinLines(rest);
        assert s == [s[0]] + s[1..];
        forall line | line in lines
          ensures '\n' !in line
        {
          assert line == lines[0] || line in rest[1..];
          assert rest[0] in rest;
        }
      }
    }
  }

  lemma {:induction false} JoinIsPlain(lines: seq<string>)
    requires lines != [] && forall i :: 0 <= i < |lines| ==> SingleLine(lines[i]) && lines[i] != ""
    ensures var s := JoinLines(lines);
      && s != "" && s[0] == lines[0][0] && s[|s| - 1] == lines[|lines| - 1][|lines[|lines| - 1]| - 1]
      && !HasBlankLine(s) && !EndsWith(s, '\n')
  {
    if |lines| > 1 {
      var line, rest := lines[0], JoinLines(lines[1..]);
      JoinIsPlain(lines[1..]);
      var s := JoinLines(lines);
      assert s == line + "\n" + rest;
      assert lines[1][0] != '\n';
      forall i | 0 <= i < |s| - 1
        ensures !(s[i] == '\n' && s[i + 1] == '\n')
      {
        if i < |line| {
          assert s[i] == line[i];
        } else if i > |line| {
          assert s[i] == rest[i - |line| - 1] && s[i + 1] == rest[i - |line|];
        }
      }
    }
  }

  lemma JudgeByFields<J>(event: string, data: seq<string>, isSse: bool, parse: string -> Option<J>)
    requires Strip(event) == event != "" && DataLines(Lines(event)) == data != []
    requires var raw := LStrip(RemovePrefix(event, "data:")); raw != "[DONE]" && parse(raw).None?
    requires Strip(JoinLines(data)) != "[DONE]" && parse(JoinLines(data)).Some?
    ensures Judge(event, isSse, parse) == Yield(parse(JoinLines(data)).value)
  {
    hide Lines, DataLines, JoinLines, Strip, LStrip, RemovePrefix, Partition, IsSseOnly;
  }

  lemma JudgeFields<J>(lines: seq<string>, chunk: J, isSse: bool, parse: string -> Option<J>)
    requires IsBlock(lines) && NeedsFields(lines, parse) && FieldsGive(lines, chunk, parse)
    ensures Judge(JoinLines(lines), isSse, parse) == Yield(chunk)
  {
    hide Lines, DataLines, JoinLines, Strip, LStrip, RemovePrefix, Partition, IsSseOnly, Judge;
    JoinIsPlain(lines);
    LinesOfJoin(lines);
    StripTrimmed(JoinLines(lines));
    JudgeByFields(JoinLines(lines), DataLines(lines), isSse, parse);
  }

  lemma PartitionAt(name: string, value: string)
    requires ':' !in name
    ensures Partition(name + ":" + value) == Field(name, true, value)
  {
    if name == "" {
      assert name + ":" + value == ":" + value && (":" + value)[1..] == value;
    } else {
      assert (name + ":" + value)[1..] == name[1..] + ":" + value;
      PartitionAt(name[1..], value);
      assert [name[0]] + name[1..] == name;
    }
  }

  /** A text printed over data lines, one for each of its own lines. */
  function DataFields(lines: seq<string>): seq<string> {
    if lines == [] then [] else ["data: " + lines[0]] + DataFields(lines[1..])
  }

  lemma {:induction false} DataOfFields(lines: seq<string>)
    ensures DataLines(DataFields(lines)) == lines
  {
    if lines != [] {
      var first, rest := "data: " + lines[0], DataFields(lines[1..]);
      assert first == "data" + ":" + (" " + lines[0]);
      PartitionAt("data", " " + lines[0]);
      assert (" " + lines[0])[1..] == lines[0];
      assert ([first] + rest)[1..] == rest;
      DataOfFields(lines[1..]);
      assert [lines[0]] + lines[1..] == lines;
    }
  }

  /** Lines that are not data fields, such as `event`, `id` and `retry`, are left out of the
      data wherever they stand. */
  lemma {:induction false} OtherFieldsDrop(before: seq<string>, line: string, after: seq<string>)
    requires Partition(line).name != "data"
    ensures DataLines(before + [line] + after) == DataLines(before + after)
  {
    if before == [] {
      assert (before + [line] + after)[0] == line && (before + [line] + after)[1..] == after;
      assert before + after == after;
    } else {
      assert (before + [line] + after)[1..] == before[1..] + [line] + after;
      assert (before + after)[1..] == before[1..] + after;
      OtherFieldsDrop(before[1..], line, after);
    }
  }

  /** Printing a text over data lines and collecting the data gives the text back. */
  lemma TextOverDataLines(text: string)
    ensures JoinLines(DataLines(DataFields(Lines(text)))) == text
  {
    DataOfFields(Lines(text));
    JoinOfLines(text);
  }

  // What an event's text says, line by line.

  /** The value of a data line: what follows `data:`, and one space if it is there. */
  function DataOf(line: string): Option<string> {
    if StartsWith(line, "data: ") then Some(line[6..])
    else if StartsWith(line, "data:") then Some(line[5..])
    else if line == "data" then Some("")
    else None
  }

  function Data(lines: seq<string>): seq<string> {
    if lines == [] then []
    else (match DataOf(lines[0]) case None => [] case Some(value) => [value]) + Data(lines[1..])
  }

  predicate IsField(line: string, name: string) {
    line == name || StartsWith(line, name + ":")
  }

  /** A line that only an event stream has, apart from data. */
  predicate IsOther(line: string) {
    StartsWith(line, ":") || IsField(line, "event") || IsField(line, "id") || IsField(line, "retry")
  }

  /** The field put together again. */
  function Whole(field: Field): string {
    field.name + if field.separated then ":" + field.value else ""
  }

  lemma {:induction false} PartitionSplits(line: string)
    ensures var field := Partition(line);
      ':' !in field.name && line == Whole(field) && (!field.separated ==> field.value == "")
  {
    hide Whole;
    if line == "" {
      EmptyIsWhole();
    } else if line[0] == ':' {
      ColonIsWhole(line);
    } else {
      PartitionSplits(line[1..]);
      WholeLonger(line[0], Partition(line[1..]));
      assert line == [line[0]] + line[1..];
    }
  }

  lemma EmptyIsWhole()
    ensures Whole(Field("", false, "")) == ""
  {
  }

  lemma ColonIsWhole(line: string)
    requires line != "" && line[0] == ':'
    ensures Whole(Field("", true, line[1..])) == line
  {
  }

  lemma WholeLonger(c: char, field: Field)
    ensures Whole(field.(name := [c] + field.name)) == [c] + Whole(field)
  {
  }

  lemma NameIs(line: string, name: string)
    requires ':' !in name
    ensures Partition(line).name == name <==> IsField(line, name)
    ensures Partition(line).name == name ==>
      Partition(line).value == if line == name then "" else line[|name| + 1..]
  {
    PartitionSplits(line);
    var field := Partition(line);
    if StartsWith(line, name + ":") {
      var value := line[|name| + 1..];
      assert line == name + ":" + value;
      PartitionAt(name, value);
    }
  }

  lemma DataLineIs(line: string)
    ensures Partition(line).name == "data" <==> DataOf(line).Some?
    ensures Partition(line).name == "data" ==> DataOf(line).value == RemovePrefix(Partition(line).value, " ")
  {
    NameIs(line, "data");
    hide Partition;
    if StartsWith(line, "data:") {
      var value := line[5..];
      assert StartsWith(line, "data: ") <==> StartsWith(value, " ");
    }
  }

  lemma {:induction false} DataLinesAre(lines: seq<string>)
    ensures DataLines(lines) == Data(lines)
  {
    hide Partition, DataOf, RemovePrefix;
    if lines != [] {
      DataLineIs(lines[0]);
      DataLinesAre(lines[1..]);
    }
  }

  lemma OtherIs(line: string)
    ensures IsSseOnly(Partition(line)) <==> IsOther(line)
  {
    NameIs(line, "event");
    NameIs(line, "id");
    NameIs(line, "retry");
    NameIs(line, "");
    PartitionSplits(line);
    hide Partition;
    assert "" + ":" == ":";
  }

  lemma AnyOtherIs(lines: seq<string>)
    ensures (exists i :: 0 <= i < |lines| && IsSseOnly(Partition(lines[i]))) <==> exists line :: line in lines && IsOther(line)
  {
    forall line
      ensures IsSseOnly(Partition(line)) <==> IsOther(line)
    {
      OtherIs(line);
    }
    hide IsSseOnly, IsOther, Partition;
    if line :| line in lines && IsOther(line) {
      var i :| 0 <= i < |lines| && lines[i] == line;
      assert IsSseOnly(Partition(lines[i]));
    }
  }

  /** The text as bare JSON, or behind a single `data:`. */
  function Bare(text: string): string {
    LStrip(RemovePrefix(Strip(text), "data:"))
  }

  /** The text is neither blank, nor [DONE], nor JSON by itself. */
  predicate NotBare<J>(text: string, parse: string -> Option<J>) {
    Strip(text) != "" && Bare(text) != "[DONE]" && parse(Bare(text)).None?
  }

  /** A text the decoder cannot take: not JSON by itself, and either its data lines together
      are neither [DONE] nor JSON, or it has none and nothing says that this is an event
      stream. */
  ghost predicate Rejected<J>(text: string, isSse: bool, parse: string -> Option<J>) {
    var lines := Lines(Strip(text));
    var data := Data(lines);
    NotBare(text, parse)
    && if data == [] then !isSse && forall line <- lines :: !IsOther(line)
       else Strip(JoinLines(data)) != "[DONE]" && parse(JoinLines(data)).None?
  }

  /** What the decoder makes of an event, from its text alone. */
  lemma JudgedByItsText<J>(text: string, isSse: bool, parse: string -> Option<J>)
    ensures var verdict, lines := Judge(text, isSse, parse), Lines(Strip(text));
      var data, other := Data(lines), isSse || exists line :: line in lines && IsOther(line);
      && (verdict == Invalid <==> Rejected(text, isSse, parse))
      && (verdict == Skip <==> Strip(text) == "" || (NotBare(text, parse) && data == [] && other))
      && (verdict == Stop <==>
            || (Strip(text) != "" && Bare(text) == "[DONE]")
            || (NotBare(text, parse) && data != [] && Strip(JoinLines(data)) == "[DONE]"))
      && (verdict.Yield? ==>
            Some(verdict.chunk) == if parse(Bare(text)).Some? then parse(Bare(text)) else parse(JoinLines(data)))
  {
    var lines := Lines(Strip(text));
    DataLinesAre(lines);
    AnyOtherIs(lines);
    hide Strip, LStrip, RemovePrefix, Lines, DataLines, Data, JoinLines, IsSseOnly, IsOther, Partition;
  }

  /** A printed item with its line endings translated and its closing blank line removed. */
  function EventText<J>(item: Item<J>): string
    requires item.Comment? ==> item.lines != []
  {
    match item
    case Object(payload, _, _) => "data: " + payload
    case Comment(lines, _) => CommentText(lines)
    case Fields(lines, _, _) => JoinLines(lines)
  }

  lemma TranslateItem<J>(item: Item<J>, rest: string, parse: string -> Option<J>)
    requires Printable(item, parse)
    ensures Translate(Print(item) + rest) == EventText(item) + "\n\n" + Translate(AfterEnd(item.end, rest))
    ensures !HasBlankLine(EventText(item)) && !EndsWith(EventText(item), '\n')
  {
    hide Translate, AfterEnd, EndText, CommentText, PrintComments, PrintLines, JoinLines;
    match item
    case Object(payload, _, end) =>
      var line := "data: " + payload;
      DataLineIsPlain(payload);
      TranslateEvent(line, end, rest);
    case Comment(lines, end) =>
      TranslateComments(lines, end, rest);
      CommentTextAllComments(lines);
      AllCommentsHasNoBlank(CommentText(lines));
    case Fields(lines, _, end) =>
      hide NeedsFields, FieldsGive;
      TranslateLines(lines, end, rest);
      JoinIsPlain(lines);
  }

  lemma DataLineIsPlain(payload: string)
    requires SingleLine(payload) && IsTrimmed(payload)
    ensures '\r' !in "data: " + payload
    ensures !HasBlankLine("data: " + payload) && !EndsWith("data: " + payload, '\n')
  {
    var line := "data: " + payload;
    forall i | 0 <= i < |line|
      ensures line[i] != '\n' && line[i] != '\r'
    {
      if i >= 6 {
        assert line[i] == payload[i - 6];
      }
    }
  }

  /** One printed item at the front of the text costs the decoder exactly that item. */
  lemma DecodeItem<J>(item: Item<J>, rest: string, isSse: bool, parse: string -> Option<J>)
    requires Printable(item, parse) && RejectsColon(parse)
    ensures DecodeEvents(Split(Translate(Print(item) + rest)), isSse, parse)
         == Prepend(ObjectOf(item), DecodeEvents(Split(Translate(AfterEnd(item.end, rest))), isSse, parse))
  {
    hide Translate, Judge, Print, Split, AfterEnd, CommentText, HasBlankLine, JoinLines, IsBlock, NeedsFields, FieldsGive;
    var event, more := EventText(item), Translate(AfterEnd(item.end, rest));
    TranslateItem(item, rest, parse);
    SplitFirst(event, more);
    assert ([event] + Split(more))[1..] == Split(more);
    match item
    case Object(payload, _, _) =>
      JudgeData(payload, isSse, parse);
    case Comment(lines, _) =>
      CommentTextAllComments(lines);
      JudgeComments(event, isSse, parse);
    case Fields(lines, chunk, _) =>
      JudgeFields(lines, chunk, isSse, parse);
  }

  lemma {:induction false} DecodeItems<J>(items: seq<Item<J>>, rest: string, isSse: bool, parse: string -> Option<J>)
    requires (forall i :: 0 <= i < |items| ==> Printable(items[i], parse)) && RejectsColon(parse)
    requires rest == "" || rest[0] != '\n'
    ensures DecodeEvents(Split(Translate(PrintAll(items) + rest)), isSse, parse)
         == Prepend(Objects(items), DecodeEvents(Split(Translate(rest)), isSse, parse))
  {
    hide Translate, Judge, Print, Split, Printable, AfterEnd, DecodeEvents;
    if items == [] {
      assert PrintAll(items) + rest == rest;
    } else {
      var more := PrintAll(items[1..]) + rest;
      var now, later := ObjectOf(items[0]), Objects(items[1..]);
      assert PrintAll(items) + rest == Print(items[0]) + more;
      PrintStartsPlain(items[1..], parse);
      AfterEndKeeps(items[0].end, more);
      DecodeItem(items[0], more, isSse, parse);
      DecodeItems(items[1..], rest, isSse, parse);
      PrependTwice(now, later, DecodeEvents(Split(Translate(rest)), isSse, parse));
      assert Objects(items) == now + later;
    }
  }

  lemma PrintHead<J>(item: Item<J>, parse: string -> Option<J>)
    requires Printable(item, parse)
    ensures Print(item) != "" && Print(item)[0] != '\n'
  {
    hide NeedsFields, FieldsGive, EndText;
    if item.Fields? {
      assert PrintLines(item.lines, item.end)[0] == item.lines[0][0];
    }
  }

  lemma PrintStartsPlain<J>(items: seq<Item<J>>, parse: string -> Option<J>)
    requires forall i :: 0 <= i < |items| ==> Printable(items[i], parse)
    ensures PrintAll(items) == "" || PrintAll(items)[0] != '\n'
  {
    if items != [] {
      assert Printable(items[0], parse);
      PrintHead(items[0], parse);
    }
  }

  /** Printing then decoding gives back exactly the objects, however the text is cut into
      reads, whichever line ending each event uses, with comments anywhere, and whatever
      follows `[DONE]`. */
  lemma PrintThenDecode<J>(items: seq<Item<J>>, end: LineEnd, junk: string,
                           pieces: seq<string>, last: string, isSse: bool, parse: string -> Option<J>)
    requires (forall i :: 0 <= i < |items| ==> Printable(items[i], parse)) && RejectsColon(parse)
    requires Concat(pieces) + last == PrintAll(items) + (PrintDone(end) + junk)
    ensures DecodeEvents(Split(Translate(Concat(pieces) + last)), isSse, parse) == Decoded(Objects(items), Done)
  {
    hide Translate, Judge, Split, HasBlankLine, EndsWith, DecodeEvents, EndText, AfterEnd;
    var done, more := "data: " + "[DONE]", Translate(AfterEnd(end, junk));
    DecodeItems(items, PrintDone(end) + junk, isSse, parse);
    DataLineIsPlain("[DONE]");
    TranslateEvent(done, end, junk);
    SplitFirst(done, more);
    JudgeData("[DONE]", isSse, parse);
    DecodeStop(done, Split(more), isSse, parse);
  }

  lemma DecodeStop<J>(event: string, rest: seq<string>, isSse: bool, parse: string -> Option<J>)
    ensures Judge(event, isSse, parse) == Stop ==>
      DecodeEvents([event] + rest, isSse, parse) == Decoded([], Done)
  {
  }

  /** The same for a body that simply ends. */
  lemma PrintThenDecodeToEof<J>(items: seq<Item<J>>, pieces: seq<string>, last: string,
                                isSse: bool, parse: string -> Option<J>)
    requires (forall i :: 0 <= i < |items| ==> Printable(items[i], parse)) && RejectsColon(parse)
    requires Concat(pieces) + last == PrintAll(items)
    ensures DecodeEvents(Split(Translate(Concat(pieces) + last)), isSse, parse) == Decoded(Objects(items), Eof)
  {
    hide Judge;
    DecodeItems(items, "", isSse, parse);
    assert PrintAll(items) + "" == PrintAll(items);
    assert Split(Translate("")) == [""];
    JudgeEmpty(isSse, parse);
  }

  /** A body goes wrong at its first invalid event: behind printed items, a text the decoder
      cannot take, closed by a blank line or by the end of the body, ends the stream with an
      error after exactly the objects before it. `rest` may use any line endings. */
  lemma InvalidEventFails<J>(items: seq<Item<J>>, rest: string, text: string, pieces: seq<string>, last: string,
                             isSse: bool, parse: string -> Option<J>)
    requires (forall i :: 0 <= i < |items| ==> Printable(items[i], parse)) && RejectsColon(parse)
    requires Concat(pieces) + last == PrintAll(items) + rest && (rest == "" || rest[0] != '\n')
    requires !HasBlankLine(text) && !EndsWith(text, '\n')
    requires Translate(rest) == text || StartsWith(Translate(rest), text + "\n\n")
    requires Rejected(text, isSse, parse)
    ensures DecodeEvents(Split(Translate(Concat(pieces) + last)), isSse, parse) == Decoded(Objects(items), Failed)
  {
    hide *;
    DecodeItems(items, rest, isSse, parse);
    JudgedByItsText(text, isSse, parse);
    DecodeRejected(Translate(rest), text, isSse, parse);
    FailedBehind(Objects(items));
  }

  lemma FailedBehind<J>(chunks: seq<J>)
    ensures Prepend(chunks, Decoded([], Failed)) == Decoded(chunks, Failed)
  {
    assert chunks + [] == chunks;
  }

  lemma DecodeRejected<J>(out: string, text: string, isSse: bool, parse: string -> Option<J>)
    requires !HasBlankLine(text) && !EndsWith(text, '\n')
    requires out == text || StartsWith(out, text + "\n\n")
    requires Judge(text, isSse, parse) == Invalid
    ensures DecodeEvents(Split(out), isSse, parse) == Decoded([], Failed)
  {
    hide Judge, Split, HasBlankLine, EndsWith, DecodeEvents;
    if StartsWith(out, text + "\n\n") {
      var more := out[|text| + 2..];
      assert out == text + "\n\n" + more;
      SplitFirst(text, more);
      DecodeFails(text, Split(more), isSse, parse);
    } else {
      SplitWhole(text);
      assert [text] == [text] + [];
      DecodeFails(text, [], isSse, parse);
    }
  }

  lemma DecodeFails<J>(event: string, rest: seq<string>, isSse: bool, parse: string -> Option<J>)
    ensures Judge(event, isSse, parse) == Invalid ==>
      DecodeEvents([event] + rest, isSse, parse) == Decoded([], Failed)
  {
  }

  lemma JudgeEmpty<J>(isSse: bool, parse: string -> Option<J>)
    ensures Judge("", isSse, parse) == Skip
  {
  }
}
