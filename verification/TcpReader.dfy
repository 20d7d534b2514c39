// The incoming side of the TCP stream: one reader loop over a socket that writers and
// `launch` may replace at any moment. A replacement is always a socket never used before.
module TcpReader {
  import opened Text

  /** A byte with where it came from: its connection and its place there. */
  datatype Byte = Byte(conn: nat, pos: nat, value: nat)

  const NEWLINE := 10

  /** What became of a connection's bytes: those thrown away before the reader turned to
      it, those it put into its buffer, and those thrown away after it was replaced. */
  datatype History = History(skipped: seq<Byte>, used: seq<Byte>, lost: seq<Byte>)

  const NO_BYTES := History([], [], [])

  datatype Pc =
    | Top
    | Reading(sock: nat)
    | Selecting(sock: nat, chosen: nat)
    | Receiving(sock: nat)
    | After(sock: nat, data: seq<Byte>)
    | Failed(sock: nat)
    | Done

  datatype State = State(
    current: nat,
    retired: set<nat>,
    dead: set<nat>,
    source: Option<nat>,
    seen: set<nat>,
    buffer: seq<Byte>,
    pc: Pc,
    history: map<nat, History>,
    out: seq<seq<Byte>>)

  datatype Input = Reconnect(id: nat) | Proceed | NotReady | Fail | Data(data: seq<Byte>) | Stop

  // ---- Lines.

  /** The finished lines of a text, without their newlines, and the unfinished rest:
      `split(b"\n")`, apart from its last piece. */
  function SplitLines(b: seq<Byte>): (r: (seq<seq<Byte>>, seq<Byte>)) {
    if b == [] then ([], [])
    else
      var last, (lines, rest) := b[|b| - 1], SplitLines(b[..|b| - 1]);
      if last.value == NEWLINE then (lines + [rest], []) else (lines, rest + [last])
  }

  /** What `bytes.strip` removes. */
  predicate IsBlankByte(b: Byte)
    ensures IsBlankByte(b) <==> b.value in {9, 10, 11, 12, 13, 32}
  {
    b.value == 32 || 9 <= b.value <= 13
  }

  predicate IsBlank(line: seq<Byte>) {
    forall b <- line :: IsBlankByte(b)
  }

  function NonBlank(lines: seq<seq<Byte>>): (r: seq<seq<Byte>>) {
    if lines == [] then []
    else
      var last := lines[|lines| - 1];
      NonBlank(lines[..|lines| - 1]) + if IsBlank(last) then [] else [last]
  }

  /** The lines that came from one connection. */
  function From(c: nat, lines: seq<seq<Byte>>): (r: seq<seq<Byte>>) {
    if lines == [] then []
    else
      var last := lines[|lines| - 1];
      From(c, lines[..|lines| - 1]) + if last != [] && last[0].conn == c then [last] else []
  }

  // ---- The reader and its surroundings.

  predicate Initial(s: State) {
    && s.retired == {} && s.dead == {} && s.source == None && s.seen == {} && s.buffer == []
    && s.pc == Top && s.history == map[s.current := NO_BYTES] && s.out == []
  }

  /** All bytes a connection delivered so far. */
  function Delivered(s: State, c: nat): seq<Byte>
    requires c in s.history
  {
    var h := s.history[c];
    h.skipped + h.used + h.lost + Pending(s.pc, c)
  }

  function Pending(pc: Pc, c: nat): seq<Byte> {
    if pc.After? && pc.data != [] && pc.data[0].conn == c then pc.data else []
  }

  /** The bytes of connection `c`, one after the other from its first. */
  predicate Numbered(c: nat, stream: seq<Byte>) {
    forall i :: 0 <= i < |stream| ==> stream[i].conn == c && stream[i].pos == i
  }

  function Discard(s: State, data: seq<Byte>): map<nat, History> {
    if data == [] || data[0].conn !in s.history then s.history
    else
      var d := data[0].conn;
      var h := s.history[d];
      s.history[d := if d in s.seen then h.(lost := h.lost + data) else h.(skipped := h.skipped + data)]
  }

  function Step(s: State, input: Input): Option<State> {
    if input.Reconnect? then
      if input.id in s.history then None
      else
        Some(s.(current := input.id, retired := s.retired + {s.current}, history := s.history[input.id := NO_BYTES]))
    else
      match s.pc
      case Top =>
        if input == Stop then Some(s.(pc := Done))
        else if s.source == Some(s.current) then Some(s.(pc := Reading(s.current)))
        else
          Some(s.(source := Some(s.current), seen := s.seen + {s.current}, buffer := [], pc := Reading(s.current)))
      case Reading(sock) => Some(s.(pc := Selecting(sock, s.current)))
      case Selecting(sock, chosen) =>
        if input == Fail then Some(s.(pc := Failed(sock)))
        else if input == NotReady || chosen != s.current then Some(s.(pc := After(sock, [])))
        else Some(s.(pc := Receiving(sock)))
      case Receiving(sock) =>
        (match input
         case Data(data) =>
           if s.current !in s.history || s.current in s.dead || data == [] || data[0].conn != s.current
              || !Numbered(s.current, Delivered(s, s.current) + data) then None
           else Some(s.(pc := After(sock, data)))
         case NotReady => Some(s.(pc := After(sock, [])))
         case Fail => Some(s.(pc := Failed(sock)))
         case _ => None)
      case After(sock, data) =>
        if sock != s.current then Some(s.(buffer := [], history := Discard(s, data), pc := Top))
        else if data == [] || sock !in s.history then Some(s.(pc := Top))
        else
          var (lines, rest) := SplitLines(s.buffer + data);
          var h := s.history[sock];
          Some(s.(buffer := rest, out := s.out + NonBlank(lines),
                  history := s.history[sock := h.(used := h.used + data)], pc := Top))
      case Failed(sock) =>
        if input == Stop then Some(s.(pc := Done))
        else Some(s.(dead := if sock == s.current then s.dead + {sock} else s.dead, buffer := [], pc := Top))
      case Done => None
  }

  ghost predicate Follows(s: State, s': State) {
    exists input :: Step(s, input) == Some(s')
  }

  ghost predicate Run(states: seq<State>) {
    && states != []
    && Initial(states[0])
    && (forall i :: 0 <= i < |states| - 1 ==> Follows(states[i], states[i + 1]))
  }

  // ---- Facts about lines.

  lemma {:induction false} SplitLinesAppend(a: seq<Byte>, b: seq<Byte>)
    ensures var (lines, rest) := SplitLines(a);
      var (more, last) := SplitLines(rest + b);
      SplitLines(a + b) == (lines + more, last)
  {
    if b == [] {
      assert a + b == a;
      var (lines, rest) := SplitLines(a);
      assert rest + b == rest;
      RestIsUnfinished(a);
      assert lines + [] == lines;
    } else {
      SplitLinesAppend(a, b[..|b| - 1]);
      assert (a + b)[..|a + b| - 1] == a + b[..|b| - 1];
      var (lines, rest) := SplitLines(a);
      assert (rest + b)[..|rest + b| - 1] == rest + b[..|b| - 1];
      var (more, last) := SplitLines(rest + b[..|b| - 1]);
      assert lines + (more + [last]) == (lines + more) + [last];
    }
  }

  predicate NoNewline(b: seq<Byte>) {
    forall x <- b :: x.value != NEWLINE
  }

  lemma {:induction false} RestIsUnfinished(a: seq<Byte>)
    ensures SplitLines(SplitLines(a).1) == ([], SplitLines(a).1)
    ensures NoNewline(SplitLines(a).1)
  {
    if a != [] {
      RestIsUnfinished(a[..|a| - 1]);
      if a[|a| - 1].value != NEWLINE {
        var rest := SplitLines(a).1;
        assert rest[..|rest| - 1] == SplitLines(a[..|a| - 1]).1;
      }
    }
  }

  /** A list of lines put back together. */
  function Joined(lines: seq<seq<Byte>>, newlines: seq<Byte>): seq<Byte>
    requires |newlines| == |lines|
  {
    if lines == [] then []
    else
      var n := |lines| - 1;
      Joined(lines[..n], newlines[..n]) + lines[n] + [newlines[n]]
  }

  /** Splitting loses nothing but the newlines, and splits at every one of them. */
  lemma {:induction false} SplitLinesIsTheSplit(a: seq<Byte>) returns (newlines: seq<Byte>)
    ensures var (lines, rest) := SplitLines(a);
      && |newlines| == |lines| && (forall x <- newlines :: x.value == NEWLINE)
      && a == Joined(lines, newlines) + rest
      && NoNewline(rest) && (forall line <- lines :: NoNewline(line))
  {
    newlines := [];
    if a != [] {
      var n := |a| - 1;
      var before := SplitLinesIsTheSplit(a[..n]);
      newlines := before;
      var (lines, rest) := SplitLines(a[..n]);
      assert a == a[..n] + [a[n]];
      if a[n].value == NEWLINE {
        newlines := before + [a[n]];
        assert newlines[..|before|] == before;
        assert (lines + [rest])[..|lines|] == lines;
      }
    }
  }

  lemma {:induction false} NonBlankAppend(a: seq<seq<Byte>>, b: seq<seq<Byte>>)
    ensures NonBlank(a + b) == NonBlank(a) + NonBlank(b)
  {
    if b == [] {
      assert a + b == a;
    } else {
      assert (a + b)[..|a + b| - 1] == a + b[..|b| - 1];
      NonBlankAppend(a, b[..|b| - 1]);
    }
  }

  lemma {:induction false} FromAppend(c: nat, a: seq<seq<Byte>>, b: seq<seq<Byte>>)
    ensures From(c, a + b) == From(c, a) + From(c, b)
  {
    if b == [] {
      assert a + b == a;
    } else {
      assert (a + b)[..|a + b| - 1] == a + b[..|b| - 1];
      FromAppend(c, a, b[..|b| - 1]);
    }
  }

  predicate AllFrom(c: nat, b: seq<Byte>) {
    forall x <- b :: x.conn == c
  }

  lemma {:induction false} SplitLinesFrom(c: nat, a: seq<Byte>)
    requires AllFrom(c, a)
    ensures AllFrom(c, SplitLines(a).1) && forall line <- SplitLines(a).0 :: AllFrom(c, line)
  {
    if a != [] {
      SplitLinesFrom(c, a[..|a| - 1]);
    }
  }

  lemma FromOne(c: nat, line: seq<Byte>)
    requires line != []
    ensures From(c, [line]) == if line[0].conn == c then [line] else []
  {
    assert From(c, [line][..0]) == [];
  }

  lemma {:induction false} FromOwn(c: nat, d: nat, lines: seq<seq<Byte>>)
    requires forall line <- lines :: AllFrom(d, line)
    ensures From(c, NonBlank(lines)) == if c == d then NonBlank(lines) else []
  {
    if lines != [] {
      var front, last := lines[..|lines| - 1], lines[|lines| - 1];
      FromOwn(c, d, front);
      assert last in lines;
      if !IsBlank(last) {
        FromAppend(c, NonBlank(front), [last]);
        assert last[0] in last;
        FromOne(c, last);
      } else {
        assert NonBlank(lines) == NonBlank(front);
      }
    }
  }

  // ---- The invariant.

  ghost predicate SocketsOk(s: State) {
    && s.current !in s.retired && s.current in s.history && s.retired <= s.history.Keys
    && s.seen <= s.retired + (if s.source.Some? then {s.source.value} else {})
    && (s.source.Some? ==> s.source.value in s.seen && IsOrWas(s, s.source.value))
  }

  predicate IsOrWas(s: State, c: nat) {
    c == s.current || c in s.retired
  }

  /** A socket looked at after `sock` is the same, or `sock` has been replaced and the
      reader has not turned to the new one. */
  predicate LookedAfter(s: State, sock: nat, d: nat) {
    && (d == sock || (sock in s.retired && d !in s.seen))
    && IsOrWas(s, d)
  }

  ghost predicate PcOk(s: State) {
    match s.pc
    case Top => true
    case Done => true
    case Reading(sock) => s.source == Some(sock)
    case Selecting(sock, chosen) => s.source == Some(sock) && LookedAfter(s, sock, chosen)
    case Receiving(sock) => s.source == Some(sock)
    case After(sock, data) =>
      && s.source == Some(sock)
      && (data != [] ==>
            && LookedAfter(s, sock, data[0].conn) && AllFrom(data[0].conn, data)
            && data[0].conn !in s.dead)
    case Failed(sock) => s.source == Some(sock)
  }

  /** While the reader is on a connection that is still there, its buffer is the unfinished
      end of that connection's bytes. */
  ghost predicate BufferOk(s: State) {
    s.source.Some? && s.source.value !in s.retired && s.source.value !in s.dead && s.source.value in s.history ==>
      s.buffer == SplitLines(s.history[s.source.value].used).1
  }

  ghost predicate HistoryOk(s: State) {
    forall c :: c in s.history ==>
      && Numbered(c, Delivered(s, c))
      && (c !in s.seen ==> s.history[c].used == [] && s.history[c].lost == [])
      && (s.history[c].lost != [] ==> c in s.retired)
      && From(c, s.out) == NonBlank(SplitLines(s.history[c].used).0)
  }

  ghost predicate OutOk(s: State) {
    forall i :: 0 <= i < |s.out| ==> s.out[i] != [] && s.out[i][0].conn in s.history
  }

  ghost predicate Inv(s: State) {
    SocketsOk(s) && PcOk(s) && BufferOk(s) && HistoryOk(s) && OutOk(s)
  }

  lemma InitialInv(s: State)
    requires Initial(s)
    ensures Inv(s)
  {
  }

  // ---- Steps.

  lemma ReconnectKeeps(s: State, input: Input)
    requires Inv(s) && input.Reconnect? && Step(s, input).Some?
    ensures Inv(Step(s, input).value)
  {
    hide SplitLines, From, NonBlank, IsBlank;
    NoLines();
    var s' := Step(s, input).value;
    FreshHasNoLines(input.id, s.out, s.history.Keys);
  }

  lemma {:induction false} FreshHasNoLines(id: nat, out: seq<seq<Byte>>, known: set<nat>)
    requires id !in known && forall i :: 0 <= i < |out| ==> out[i] != [] && out[i][0].conn in known
    ensures From(id, out) == []
  {
    if out != [] {
      FreshHasNoLines(id, out[..|out| - 1], known);
    }
  }

  lemma NumberedFrom(c: nat, a: seq<Byte>, b: seq<Byte>, d: seq<Byte>)
    requires Numbered(c, a + b + d)
    ensures AllFrom(c, b) && AllFrom(c, d)
  {
    var all := a + b + d;
    forall x | x in b
      ensures x.conn == c
    {
      var i :| 0 <= i < |b| && b[i] == x;
      assert all[|a| + i] == x;
    }
    forall x | x in d
      ensures x.conn == c
    {
      var i :| 0 <= i < |d| && d[i] == x;
      assert all[|a| + |b| + i] == x;
    }
  }

  lemma ReceiveKeeps(s: State, input: Input)
    requires Inv(s) && s.pc.Receiving? && input.Data? && Step(s, input).Some?
    ensures Inv(Step(s, input).value)
  {
    hide SplitLines, From, NonBlank, IsBlank, Numbered;
    var s' := Step(s, input).value;
    var c := s.current;
    assert s' == s.(pc := After(s.pc.sock, input.data));
    assert Delivered(s', c) == Delivered(s, c) + input.data;
    NumberedFrom(c, Delivered(s, c), [], input.data) by {
      assert Delivered(s, c) + [] + input.data == Delivered(s, c) + input.data;
    }
    forall d | d in s'.history && d != c
      ensures Delivered(s', d) == Delivered(s, d)
    {
    }
  }

  lemma SameHistory(s: State, s': State)
    requires HistoryOk(s) && OutOk(s) && s'.history == s.history && s'.out == s.out
    requires s.retired <= s'.retired && s.seen <= s'.seen
    requires forall c :: c in s.history ==> Pending(s'.pc, c) == Pending(s.pc, c)
    ensures HistoryOk(s') && OutOk(s')
  {
    hide SplitLines, From, NonBlank, Numbered;
    forall c | c in s'.history
      ensures Delivered(s', c) == Delivered(s, c)
    {
    }
  }

  lemma NoLines()
    ensures SplitLines([]) == ([], []) && NonBlank([]) == []
  {
  }

  lemma UnseenIsUnused(s: State)
    requires HistoryOk(s) && s.current in s.history
    ensures s.current !in s.seen ==> s.history[s.current].used == []
  {
    hide SplitLines, From, NonBlank, Numbered;
  }

  /** The reader turns to a socket, or to the one it had. */
  lemma TopKeeps(s: State, input: Input)
    requires Inv(s) && !input.Reconnect? && s.pc.Top? && Step(s, input).Some?
    ensures Inv(Step(s, input).value)
  {
    hide SplitLines, HistoryOk, OutOk;
    NoLines();
    UnseenIsUnused(s);
    SameHistory(s, Step(s, input).value);
  }

  /** The other steps that only move the reader on. */
  lemma MoveKeeps(s: State, input: Input)
    requires Inv(s) && !input.Reconnect? && !s.pc.Top? && !s.pc.After? && Step(s, input).Some?
    requires !(s.pc.Receiving? && input.Data?)
    ensures Inv(Step(s, input).value)
  {
    hide SplitLines, HistoryOk, OutOk, Numbered;
    var s' := Step(s, input).value;
    SameHistory(s, s');
  }

  lemma DiscardKeeps(s: State, input: Input)
    requires Inv(s) && !input.Reconnect? && s.pc.After? && s.pc.sock != s.current && Step(s, input).Some?
    ensures Inv(Step(s, input).value)
  {
    hide SplitLines, From, NonBlank, IsBlank;
    var s' := Step(s, input).value;
    var data := s.pc.data;
    if data != [] {
      var d := data[0].conn;
      assert s'.history == Discard(s, data);
      assert Delivered(s', d) == Delivered(s, d);
    }
  }

  lemma AbsorbKeeps(s: State, input: Input)
    requires Inv(s) && !input.Reconnect? && s.pc.After? && s.pc.sock == s.current && Step(s, input).Some?
    ensures Inv(Step(s, input).value)
  {
    hide SplitLines, From, NonBlank, IsBlank;
    var s' := Step(s, input).value;
    var c, data := s.current, s.pc.data;
    if data != [] {
      var used := s.history[c].used;
      assert Delivered(s', c) == Delivered(s, c);
      var (lines, rest) := SplitLines(s.buffer + data);
      SplitLinesAppend(used, data);
      NonBlankAppend(SplitLines(used).0, lines);
      assert AllFrom(c, s.buffer + data) by {
        NumberedFrom(c, s.history[c].skipped, used, s.history[c].lost + data) by {
          assert s.history[c].skipped + used + (s.history[c].lost + data) == Delivered(s, c);
        }
        SplitLinesFrom(c, used);
      }
      SplitLinesFrom(c, s.buffer + data);
      forall e | e in s'.history
        ensures From(e, s'.out) == NonBlank(SplitLines(s'.history[e].used).0)
      {
        FromAppend(e, s.out, NonBlank(lines));
        FromOwn(e, c, lines);
      }
      NonBlankFrom(c, lines);
    }
  }

  lemma {:induction false} NonBlankFrom(c: nat, lines: seq<seq<Byte>>)
    requires forall line <- lines :: AllFrom(c, line)
    ensures forall i :: 0 <= i < |NonBlank(lines)| ==> NonBlank(lines)[i] != [] && NonBlank(lines)[i][0].conn == c
  {
    if lines != [] {
      var last := lines[|lines| - 1];
      NonBlankFrom(c, lines[..|lines| - 1]);
      assert last in lines;
      if !IsBlank(last) {
        assert last[0] in last;
      }
    }
  }

  lemma StepKeepsInv(s: State, input: Input)
    requires Inv(s) && Step(s, input).Some?
    ensures Inv(Step(s, input).value)
  {
    hide Inv, Step;
    if input.Reconnect? {
      ReconnectKeeps(s, input);
    } else if s.pc.Top? {
      TopKeeps(s, input);
    } else if s.pc.After? {
      if s.pc.sock != s.current {
        DiscardKeeps(s, input);
      } else {
        AbsorbKeeps(s, input);
      }
    } else if s.pc.Receiving? && input.Data? {
      ReceiveKeeps(s, input);
    } else {
      MoveKeeps(s, input);
    }
  }

  lemma {:induction false} RunKeepsInv(states: seq<State>, i: nat)
    requires Run(states) && i < |states|
    ensures Inv(states[i])
  {
    hide Inv, Step;
    if i == 0 {
      InitialInv(states[0]);
    } else {
      RunKeepsInv(states, i - 1);
      assert Follows(states[i - 1], states[i - 1 + 1]);
      var input :| Step(states[i - 1], input) == Some(states[i]);
      StepKeepsInv(states[i - 1], input);
    }
  }

  // ---- Rounds of the loop.

  function StepsLeft(pc: Pc): nat {
    match pc
    case Reading(_) => 4
    case Selecting(_, _) => 3
    case Receiving(_) => 2
    case After(_, _) | Failed(_) => 1
    case _ => 0
  }

  /** Every round ends: the loop begins one with the current socket, or stops, and each of its
      steps brings the round closer to its end, whatever the socket does. A reconnect
      elsewhere does not move it. */
  lemma EveryRoundEnds(s: State, input: Input)
    requires Step(s, input).Some?
    ensures var s' := Step(s, input).value;
      if input.Reconnect? then s'.pc == s.pc
      else if s.pc.Top? then s'.pc == if input == Stop then Done else Reading(s.current)
      else StepsLeft(s'.pc) < StepsLeft(s.pc)
  {
    hide SplitLines, NonBlank, Discard;
  }

  /** The loop is only ever held up by its socket: a round goes on by itself, by data, by a
      timeout or by a failure. A timeout ends it without data. A failure drops what is buffered, and
      retires the socket if it is still the current one; either may stop the loop. */
  lemma RoundsGoOn(s: State)
    requires Inv(s) && s.pc != Done
    ensures
      match s.pc
      case Selecting(sock, chosen) =>
        && Step(s, Fail) == Some(s.(pc := Failed(sock)))
        && Step(s, NotReady) == Some(s.(pc := After(sock, [])))
        && Step(s, Proceed) == Some(s.(pc := if chosen == s.current then Receiving(sock) else After(sock, [])))
      case Receiving(sock) =>
        && Step(s, Fail) == Some(s.(pc := Failed(sock)))
        && Step(s, NotReady) == Some(s.(pc := After(sock, [])))
        && Step(s, Proceed).None?
      case Failed(sock) =>
        && Step(s, Stop) == Some(s.(pc := Done))
        && Step(s, Proceed).Some?
        && Step(s, Proceed).value.buffer == [] && Step(s, Proceed).value.out == s.out
        && Step(s, Proceed).value.dead == if sock == s.current then s.dead + {sock} else s.dead
      case _ => Step(s, Proceed).Some?
  {
    hide SplitLines, NonBlank, Discard, Inv;
  }

  // ---- The main results.

  /** Every line the reader ever yields consists of consecutive bytes of one connection. */
  predicate OneConnection(line: seq<Byte>) {
    forall i :: 0 <= i < |line| ==> line[i].conn == line[0].conn && line[i].pos == line[0].pos + i
  }

  lemma {:induction false} LinesAreRuns(c: nat, a: seq<Byte>, start: nat)
    requires forall i :: 0 <= i < |a| ==> a[i].conn == c && a[i].pos == start + i
    ensures var (lines, rest) := SplitLines(a);
      && |rest| <= |a| && rest == a[|a| - |rest|..]
      && (forall line <- lines :: OneConnection(line))
  {
    if a != [] {
      LinesAreRuns(c, a[..|a| - 1], start);
      var rest := SplitLines(a[..|a| - 1]).1;
      var k := |a| - 1 - |rest|;
      forall i | 0 <= i < |rest|
        ensures rest[i] == a[k + i]
      {
      }
    }
  }

  lemma {:induction false} NonBlankKeeps(lines: seq<seq<Byte>>)
    ensures forall line <- NonBlank(lines) :: line in lines
  {
    if lines != [] {
      NonBlankKeeps(lines[..|lines| - 1]);
    }
  }

  lemma {:induction false} FromFinds(c: nat, lines: seq<seq<Byte>>, i: nat)
    requires i < |lines| && lines[i] != [] && lines[i][0].conn == c
    ensures lines[i] in From(c, lines)
  {
    if i < |lines| - 1 {
      FromFinds(c, lines[..|lines| - 1], i);
    }
  }

  lemma NoLineMixesConnections(states: seq<State>, i: nat, k: nat)
    requires Run(states) && i < |states| && k < |states[i].out|
    ensures OneConnection(states[i].out[k])
  {
    hide SplitLines, From, NonBlank;
    RunKeepsInv(states, i);
    var s := states[i];
    var line := s.out[k];
    var c := line[0].conn;
    var h := s.history[c];
    FromFinds(c, s.out, k);
    assert line in NonBlank(SplitLines(h.used).0);
    NonBlankKeeps(SplitLines(h.used).0);
    var all := Delivered(s, c);
    forall j | 0 <= j < |h.used|
      ensures h.used[j].conn == c && h.used[j].pos == |h.skipped| + j
    {
      assert h.used[j] == all[|h.skipped| + j];
    }
    LinesAreRuns(c, h.used, |h.skipped|);
  }

  /** The whole story of a connection: its bytes are those skipped, those used and those
      lost, in this order; the lines yielded from it are exactly the finished non-blank
      lines of what was used; nothing is lost while it is the current connection. */
  lemma LinesOfAConnection(states: seq<State>, i: nat, c: nat)
    requires Run(states) && i < |states| && c in states[i].history
    ensures var s := states[i];
      var h := s.history[c];
      && Numbered(c, h.skipped + h.used + h.lost + Pending(s.pc, c))
      && From(c, s.out) == NonBlank(SplitLines(h.used).0)
      && (c == s.current ==> h.lost == [])
  {
    RunKeepsInv(states, i);
  }

  /** What becomes of bytes read, exactly: they are used if the socket noted at the start of
      the round is still the current one, skipped if they came from another than it, and
      lost if they came from it but it has been replaced since. */
  lemma WhatBecomesOfARead(states: seq<State>, i: nat)
    requires Run(states) && i < |states| && states[i].pc.After? && states[i].pc.data != []
    ensures var s := states[i];
      var sock, data, d := s.pc.sock, s.pc.data, s.pc.data[0].conn;
      && d in s.history && Step(s, Proceed).Some?
      && var s' := Step(s, Proceed).value;
      && d in s'.history
      && (sock == s.current ==> d == sock)
      && s'.history[d] ==
         if sock == s.current then s.history[d].(used := s.history[d].used + data)
         else if d != sock then s.history[d].(skipped := s.history[d].skipped + data)
         else s.history[d].(lost := s.history[d].lost + data)
  {
    hide SplitLines, HistoryOk, OutOk, BufferOk;
    RunKeepsInv(states, i);
  }

  /** A read taken from connection `c` in a round that had noted another socket. */
  predicate Strays(s: State, c: nat) {
    s.pc.After? && s.pc.data != [] && s.pc.data[0].conn == c && s.pc.sock != c
  }

  lemma SkippedStep(s: State, input: Input, c: nat)
    requires Inv(s) && Step(s, input).Some? && c in s.history
    ensures var s' := Step(s, input).value;
      && c in s'.history
      && (s'.history[c].skipped != [] <==> s.history[c].skipped != [] || (Strays(s, c) && s'.pc.Top?))
  {
    hide SplitLines, HistoryOk, OutOk, BufferOk, NonBlank;
  }

  lemma StraysAreKnown(s: State, c: nat)
    requires Inv(s) && Strays(s, c)
    ensures c in s.history
  {
    hide HistoryOk, OutOk, BufferOk;
  }

  lemma {:induction false} KnownStays(states: seq<State>, j: nat, i: nat, c: nat)
    requires Run(states) && j <= i < |states| && c in states[j].history
    ensures c in states[i].history
  {
    hide Step, Inv;
    if j < i {
      KnownStays(states, j, i - 1, c);
      RunKeepsInv(states, i - 1);
      assert Follows(states[i - 1], states[i - 1 + 1]);
      var input :| Step(states[i - 1], input) == Some(states[i]);
      SkippedStep(states[i - 1], input, c);
    }
  }

  /** Exactly when a connection loses its first bytes: when some earlier read took them in a
      round that had noted another socket. */
  lemma {:induction false} SkippedExactly(states: seq<State>, i: nat, c: nat)
    requires Run(states) && i < |states| && c in states[i].history
    ensures states[i].history[c].skipped != [] <==>
      exists j :: 0 <= j < i && Strays(states[j], c) && states[j + 1].pc.Top?
  {
    hide Step, Inv, Strays;
    if i > 0 {
      RunKeepsInv(states, i - 1);
      assert Follows(states[i - 1], states[i - 1 + 1]);
      var input :| Step(states[i - 1], input) == Some(states[i]);
      if c in states[i - 1].history {
        SkippedExactly(states, i - 1, c);
        SkippedStep(states[i - 1], input, c);
        assert Strays(states[i - 1], c) && states[i].pc.Top? ==> Strays(states[i - 1], c) && states[i - 1 + 1].pc.Top?;
      } else {
        NewHasNothingSkipped(states[i - 1], input, c);
        forall j | 0 <= j < i
          ensures !Strays(states[j], c)
        {
          RunKeepsInv(states, j);
          if Strays(states[j], c) {
            StraysAreKnown(states[j], c);
            KnownStays(states, j, i - 1, c);
          }
        }
      }
    }
  }

  lemma NewHasNothingSkipped(s: State, input: Input, c: nat)
    requires Inv(s) && Step(s, input).Some? && c !in s.history && c in Step(s, input).value.history
    ensures Step(s, input).value.history[c].skipped == []
  {
    hide SplitLines, HistoryOk, OutOk, BufferOk, NonBlank;
  }

  /** So the lines of a current connection of which nothing was skipped are those of all it
      delivered. */
  lemma NothingSkippedNothingMissed(states: seq<State>, i: nat)
    requires Run(states) && i < |states| && !states[i].pc.After?
    ensures var s := states[i];
      s.current in s.history && (s.history[s.current].skipped == [] ==>
        From(s.current, s.out) == NonBlank(SplitLines(Delivered(s, s.current)).0))
  {
    hide SplitLines, Numbered, From, NonBlank;
    RunKeepsInv(states, i);
    var s := states[i];
    var h := s.history[s.current];
    assert h.lost == [];
    assert h.skipped == [] ==> h.skipped + h.used + h.lost + [] == h.used;
  }

  lemma Extend(states: seq<State>, input: Input, s': State)
    requires Run(states) && Step(states[|states| - 1], input) == Some(s')
    ensures Run(states + [s'])
  {
    hide Step;
    var all := states + [s'];
    forall i | 0 <= i < |all| - 1
      ensures Follows(all[i], all[i + 1])
    {
      if i == |states| - 1 {
        assert Step(all[i], input) == Some(all[i + 1]);
      }
    }
  }

  const A := Byte(1, 0, 65)
  const B := Byte(1, 1, 66)
  const N := Byte(1, 2, NEWLINE)

  /** The reader notes socket 0, reads from socket 1, and throws away what it got. */
  lemma SkipOne() returns (states: seq<State>)
    ensures Run(states)
    ensures states[|states| - 1]
         == State(1, {0}, {}, Some(0), {0}, [], Top, map[0 := NO_BYTES, 1 := History([A], [], [])], [])
  {
    var s0 := State(0, {}, {}, None, {}, [], Top, map[0 := NO_BYTES], []);
    var s1 := s0.(source := Some(0), seen := {0}, pc := Reading(0));
    assert s0.seen + {0} == {0};
    Extend([s0], Proceed, s1);
    var s2 := s1.(current := 1, retired := {0}, history := map[0 := NO_BYTES, 1 := NO_BYTES]);
    assert s1.retired + {0} == {0};
    assert s1.history[1 := NO_BYTES] == s2.history;
    Extend([s0] + [s1], Reconnect(1), s2);
    var s3 := s2.(pc := Selecting(0, 1));
    Extend([s0] + [s1] + [s2], Proceed, s3);
    var s4 := s3.(pc := Receiving(0));
    Extend([s0] + [s1] + [s2] + [s3], Proceed, s4);
    var s5 := s4.(pc := After(0, [A]));
    Extend([s0] + [s1] + [s2] + [s3] + [s4], Data([A]), s5);
    var s6 := s5.(history := map[0 := NO_BYTES, 1 := History([A], [], [])], pc := Top);
    assert NO_BYTES.skipped + [A] == [A];
    assert Discard(s5, [A]) == s6.history;
    Extend([s0] + [s1] + [s2] + [s3] + [s4] + [s5], Proceed, s6);
    states := [s0] + [s1] + [s2] + [s3] + [s4] + [s5] + [s6];
  }

  /** Bytes can be skipped: a socket replaced while the reader is between noting it and
      reading makes the first bytes of the new one vanish, and the first line yielded from
      it is then the end of a line. */
  lemma FirstBytesCanBeSkipped() returns (states: seq<State>)
    ensures Run(states) && 1 in states[|states| - 1].history
    ensures var s := states[|states| - 1];
      && s.history[1].skipped == [A]
      && s.out == [[B]]
  {
    var before := SkipOne();
    var s6 := before[|before| - 1];
    var s7 := s6.(source := Some(1), seen := {0, 1}, pc := Reading(1));
    assert s6.seen + {1} == {0, 1};
    Extend(before, Proceed, s7);
    var s8 := s7.(pc := Selecting(1, 1));
    Extend(before + [s7], Proceed, s8);
    var s9 := s8.(pc := Receiving(1));
    Extend(before + [s7] + [s8], Proceed, s9);
    var s10 := s9.(pc := After(1, [B, N]));
    assert Delivered(s9, 1) + [B, N] == [A, B, N];
    Extend(before + [s7] + [s8] + [s9], Data([B, N]), s10);
    var s11 := s10.(history := s10.history[1 := History([A], [B, N], [])], pc := Top, out := [[B]]);
    OneLine();
    assert s10.buffer + [B, N] == [B, N];
    assert s10.history[1].used + [B, N] == [B, N];
    Extend(before + [s7] + [s8] + [s9] + [s10], Proceed, s11);
    states := before + [s7] + [s8] + [s9] + [s10] + [s11];
  }

  lemma OneLine()
    ensures SplitLines([B, N]) == ([[B]], [])
    ensures NonBlank([[B]]) == [[B]]
  {
    assert [B, N][..1] == [B] && [B][..0] == [];
    assert SplitLines([]).1 + [B] == [B];
    assert SplitLines([B]) == ([], [B]);
    assert SplitLines([B]).0 + [[B]] == [[B]];
    assert B in [B];
    assert NonBlank([[B]][..0]) == [];
  }

  // ---- The loop on one connection that stays.

  /** However the bytes of a connection are cut into reads, the reader yields the non-blank
      lines of all of them, and keeps the unfinished end. */
  method ReadLines(pieces: seq<seq<Byte>>) returns (out: seq<seq<Byte>>, buffer: seq<Byte>)
    ensures out == NonBlank(SplitLines(Concat(pieces)).0)
    ensures buffer == SplitLines(Concat(pieces)).1
  {
    hide SplitLines, NonBlank, IsBlank, Concat;
    out, buffer := [], [];
    NoLines();
    ConcatNone<Byte>();
    assert pieces[..0] == [];
    for i := 0 to |pieces|
      invariant out == NonBlank(SplitLines(Concat(pieces[..i])).0)
      invariant buffer == SplitLines(Concat(pieces[..i])).1
    {
      var (lines, rest) := SplitLines(buffer + pieces[i]);
      assert pieces[..i + 1] == pieces[..i] + [pieces[i]];
      ConcatSnoc(pieces[..i], pieces[i]);
      SplitLinesAppend(Concat(pieces[..i]), pieces[i]);
      NonBlankAppend(SplitLines(Concat(pieces[..i])).0, lines);
      out := out + NonBlank(lines);
      buffer := rest;
    }
    assert pieces[..|pieces|] == pieces;
  }
}
