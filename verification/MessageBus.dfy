// Backwards invocations over the shared request reader: every invocation registers a
// filtered reader, sends its request, and converts the responses its reader is handed.
// The critical sections under the request reader's lock are single steps.
module MessageBus {
  import opened Text
  import FilterReader
  import LineConverter

  datatype Event = Request | BackwardsResponse

  datatype Line = Line(session: string, event: Event, requestId: Option<nat>, response: LineConverter.Response)

  /** Why an invocation left its loop. `Stopped` is its own side: the request could not be
      sent, or the consumer went away. */
  datatype Reason = GotEnd | GotError(message: string) | GotNoData | TimedOut | ParseFailed | ReaderClosed | Stopped

  datatype CallPc =
    | Registered
    | Sending
    | AtClosedCheck
    | AtEmptyCheck
    | AtGet
    | AtYield
    | Left(reason: Reason)

  /** One invocation and its reader. `attached` says the request reader still lists it. Of the
      history, `taken` has the lines read, and `rounds` what each round of reading gave the
      converter: a response, or nothing. */
  datatype Call = Call(
    session: string,
    limit: nat,
    attached: bool,
    queue: seq<Option<Line>>,
    closed: bool,
    pc: CallPc,
    empties: nat,
    taken: seq<Line>,
    rounds: seq<LineConverter.Chunk>,
    yielded: seq<string>)

  /** The event loop: which matched readers are still to be handed the current line. */
  datatype Loop =
    | Waiting
    | Checking(line: Line, rest: set<nat>)
    | Putting(line: Line, id: nat, rest: set<nat>)

  datatype State = State(
    calls: map<nat, Call>,
    loop: Loop,
    closers: map<nat, (nat, FilterReader.Stage)>,
    sent: set<nat>,
    arrivals: seq<Line>)

  const INITIAL := State(map[], Waiting, map[], {}, [])

  datatype Action =
    | Register(id: nat, session: string, limit: nat)
    | Send(id: nat)
    | SendDone(id: nat, ok: bool)
    | Arrive(line: Line)
    | Deliver(id: nat)
    | DeliverPut
    | DeliverDone
    | CloseCheck(token: nat, id: nat)
    | CloseFlag(token: nat)
    | CloseCall(token: nat)
    | ClosePut(token: nat)
    | ClearReaders
    | Read(id: nat, parses: bool)
    | Tick(id: nat)
    | Resume(id: nat, goOn: bool)

  predicate Matches(id: nat, call: Call, line: Line) {
    line.session == call.session && line.event == BackwardsResponse && line.requestId == Some(id)
  }

  /** The line converter's reaction to one response. */
  function Convert(call: Call, line: Line, parses: bool): Call {
    var call := call.(taken := call.taken + [line], rounds := call.rounds + [Some(line.response)]);
    match line.response
    case End => call.(pc := Left(GotEnd))
    case Error(message) => call.(pc := Left(GotError(message)))
    case NoData => call.(pc := Left(GotNoData))
    case Reply(data) =>
      var call := call.(empties := 0);
      if parses then call.(yielded := call.yielded + [data], pc := AtYield) else call.(pc := Left(ParseFailed))
  }

  function ReadStep(call: Call, parses: bool): Option<Call> {
    match call.pc
    case AtClosedCheck => Some(call.(pc := if call.closed then AtEmptyCheck else AtGet))
    case AtEmptyCheck => Some(call.(pc := if call.queue == [] then Left(ReaderClosed) else AtGet))
    case AtGet =>
      if call.queue == [] then None
      else
        var call', e := call.(queue := call.queue[1..]), call.queue[0];
        Some(match e case None => call'.(pc := Left(ReaderClosed)) case Some(line) => Convert(call', line, parses))
    case _ => None
  }

  function TickStep(call: Call): Option<Call> {
    if call.pc != AtGet || call.queue != [] then None
    else
      var call := call.(empties := call.empties + 1, rounds := call.rounds + [None]);
      Some(call.(pc := if call.empties >= call.limit then Left(TimedOut) else AtClosedCheck))
  }

  function Put(s: State, id: nat, e: Option<Line>): State
    requires id in s.calls
  {
    s.(calls := s.calls[id := s.calls[id].(queue := s.calls[id].queue + [e])])
  }

  function Own(s: State, id: nat, call: Option<Call>): Option<State> {
    match call case None => None case Some(call) => Some(s.(calls := s.calls[id := call]))
  }

  function Step(s: State, action: Action): Option<State> {
    match action
    case Register(id, session, limit) =>
      if id in s.calls then None
      else Some(s.(calls := s.calls[id := Call(session, limit, true, [], false, Registered, 0, [], [], [])]))
    case Send(id) =>
      if id in s.calls && s.calls[id].pc == Registered then
        Some(s.(calls := s.calls[id := s.calls[id].(pc := Sending)], sent := s.sent + {id}))
      else None
    case SendDone(id, ok) =>
      if id in s.calls && s.calls[id].pc == Sending then
        Some(s.(calls := s.calls[id := s.calls[id].(pc := if ok then AtClosedCheck else Left(Stopped))]))
      else None
    case Arrive(line) =>
      // A response can only come after its request was written.
      if s.loop == Waiting && (line.event == BackwardsResponse && line.requestId.Some? ==> line.requestId.value in s.sent) then
        var matched := set id | id in s.calls && s.calls[id].attached && Matches(id, s.calls[id], line);
        Some(s.(loop := Checking(line, matched), arrivals := s.arrivals + [line]))
      else None
    case Deliver(id) =>
      if s.loop.Checking? && id in s.loop.rest && id in s.calls then
        var rest := s.loop.rest - {id};
        Some(s.(loop := if s.calls[id].closed then Checking(s.loop.line, rest) else Putting(s.loop.line, id, rest)))
      else None
    case DeliverPut =>
      if s.loop.Putting? && s.loop.id in s.calls then
        Some(Put(s, s.loop.id, Some(s.loop.line)).(loop := Checking(s.loop.line, s.loop.rest)))
      else None
    case DeliverDone =>
      if s.loop.Checking? && s.loop.rest == {} then Some(s.(loop := Waiting)) else None
    case CloseCheck(token, id) =>
      if id !in s.calls || token in s.closers then None
      else if s.calls[id].closed then Some(s)
      else Some(s.(closers := s.closers[token := (id, FilterReader.Checked)]))
    case CloseFlag(token) =>
      if token in s.closers && s.closers[token].1 == FilterReader.Checked && s.closers[token].0 in s.calls then
        var id := s.closers[token].0;
        Some(s.(closers := s.closers[token := (id, FilterReader.Flagged)], calls := s.calls[id := s.calls[id].(closed := true)]))
      else None
    case CloseCall(token) =>
      if token in s.closers && s.closers[token].1 == FilterReader.Flagged && s.closers[token].0 in s.calls then
        var id := s.closers[token].0;
        Some(s.(closers := s.closers[token := (id, FilterReader.Called)], calls := s.calls[id := s.calls[id].(attached := false)]))
      else None
    case ClosePut(token) =>
      if token in s.closers && s.closers[token].1 == FilterReader.Called && s.closers[token].0 in s.calls then
        Some(Put(s, s.closers[token].0, None).(closers := s.closers - {token}))
      else None
    case ClearReaders => Some(s.(calls := map id | id in s.calls :: s.calls[id].(attached := false)))
    case Read(id, parses) => if id in s.calls then Own(s, id, ReadStep(s.calls[id], parses)) else None
    case Tick(id) => if id in s.calls then Own(s, id, TickStep(s.calls[id])) else None
    case Resume(id, goOn) =>
      if id in s.calls && s.calls[id].pc == AtYield then
        Some(s.(calls := s.calls[id := s.calls[id].(pc := if goOn then AtClosedCheck else Left(Stopped))]))
      else None
  }

  function Run(actions: seq<Action>): Option<State> {
    if actions == [] then Some(INITIAL)
    else match Run(actions[..|actions| - 1])
      case None => None
      case Some(s) => Step(s, actions[|actions| - 1])
  }

  // ---- What an invocation should see.

  /** The lines addressed to an invocation, in order of arrival. */
  function Addressed(arrivals: seq<Line>, id: nat, session: string): seq<Line> {
    if arrivals == [] then []
    else
      var last := arrivals[|arrivals| - 1];
      Addressed(arrivals[..|arrivals| - 1], id, session)
      + if last.session == session && last.event == BackwardsResponse && last.requestId == Some(id) then [last] else []
  }

  /** Queue entries still to be read, without sentinels. */
  function Waits(queue: seq<Option<Line>>): seq<Line> {
    FilterReader.Messages(queue)
  }

  function Received(call: Call): seq<Line> {
    call.taken + Waits(call.queue)
  }

  function Payloads(lines: seq<Line>): seq<string> {
    if lines == [] then []
    else
      var last := lines[|lines| - 1];
      Payloads(lines[..|lines| - 1]) + if last.response.Reply? then [last.response.data] else []
  }

  predicate AllReplies(lines: seq<Line>) {
    forall i :: 0 <= i < |lines| ==> lines[i].response.Reply?
  }

  /** Left at a response that ends the invocation. */
  predicate Ended(pc: CallPc) {
    pc.Left? && (pc.reason.GotEnd? || pc.reason.GotError? || pc.reason.GotNoData?)
  }

  /** The event loop is about to hand this invocation the current line. */
  predicate InHand(loop: Loop, id: nat) {
    (loop.Checking? && id in loop.rest) || (loop.Putting? && (id == loop.id || id in loop.rest))
  }

  /** Delivery: what a call has received, against what was addressed to it. */
  ghost predicate Delivered(id: nat, call: Call, loop: Loop, arrivals: seq<Line>) {
    var due, got := Addressed(arrivals, id, call.session), Received(call);
    && got <= due
    && (call.attached && !call.closed && !InHand(loop, id) ==> got == due)
    && (InHand(loop, id) && (!call.closed || (loop.Putting? && loop.id == id)) ==>
          got + [loop.line] <= due && (call.attached && !call.closed ==> got + [loop.line] == due))
  }

  /** Conversion: what a call has yielded, and why it left, against what it has taken. */
  ghost predicate Converted(call: Call) {
    var n := |call.taken|;
    match call.pc
    case Left(reason) =>
      (match reason
       case GotEnd => n > 0 && call.taken[n - 1].response == LineConverter.End
       case GotError(message) => n > 0 && call.taken[n - 1].response == LineConverter.Error(message)
       case GotNoData => n > 0 && call.taken[n - 1].response == LineConverter.NoData
       case TimedOut => call.empties >= call.limit
       case ParseFailed => n > 0 && call.taken[n - 1].response.Reply?
       case ReaderClosed => call.closed
       case Stopped => true)
      && (Ended(call.pc) || AllReplies(call.taken))
      && (if Ended(call.pc) || reason == ParseFailed then
            AllReplies(call.taken[..n - 1]) && call.yielded == Payloads(call.taken[..n - 1])
          else call.yielded == Payloads(call.taken))
    case _ => AllReplies(call.taken) && call.yielded == Payloads(call.taken)
  }

  ghost predicate CallOk(s: State, id: nat)
    requires id in s.calls
  {
    && Delivered(id, s.calls[id], s.loop, s.arrivals)
    && Converted(s.calls[id])
    && (s.calls[id].pc == AtEmptyCheck ==> s.calls[id].closed)
    && (None in s.calls[id].queue ==> s.calls[id].closed)
  }

  ghost predicate SentOk(s: State) {
    && s.sent <= s.calls.Keys
    && (forall i :: 0 <= i < |s.arrivals| && s.arrivals[i].event == BackwardsResponse && s.arrivals[i].requestId.Some?
          ==> s.arrivals[i].requestId.value in s.sent)
    && (forall t :: t in s.closers ==>
          && s.closers[t].0 in s.calls
          && (s.closers[t].1 != FilterReader.Checked ==> s.calls[s.closers[t].0].closed))
    && (s.loop.Putting? ==> s.loop.id !in s.loop.rest)
    && (s.loop.Checking? ==> s.loop.rest <= s.calls.Keys)
    && (s.loop.Putting? ==> s.loop.rest <= s.calls.Keys && s.loop.id in s.calls)
  }

  ghost predicate Inv(s: State) {
    SentOk(s) && forall id :: id in s.calls ==> CallOk(s, id)
  }

  /** The caller's own steps leave the reader's registration and flag alone. */
  predicate SameReader(call: Call, call': Call) {
    call'.session == call.session && call'.closed == call.closed && call'.attached == call.attached
  }

  lemma OwnStepKeepsReader(call: Call, parses: bool)
    ensures ReadStep(call, parses).Some? ==> SameReader(call, ReadStep(call, parses).value)
    ensures TickStep(call).Some? ==> SameReader(call, TickStep(call).value)
  {
  }

  /** What the invocation's own step makes of it. */
  function OwnEffect(call: Call, action: Action): Option<Call> {
    match action
    case Send(_) => if call.pc == Registered then Some(call.(pc := Sending)) else None
    case SendDone(_, ok) =>
      if call.pc == Sending then Some(call.(pc := if ok then AtClosedCheck else Left(Stopped))) else None
    case Read(_, parses) => ReadStep(call, parses)
    case Tick(_) => TickStep(call)
    case Resume(_, goOn) =>
      if call.pc == AtYield then Some(call.(pc := if goOn then AtClosedCheck else Left(Stopped))) else None
    case _ => None
  }

  predicate IsOwn(action: Action) {
    action.Read? || action.Tick? || action.Resume? || action.Send? || action.SendDone?
  }

  lemma OwnStepIsOwnEffect(s: State, action: Action)
    requires IsOwn(action) && Step(s, action).Some?
    ensures action.id in s.calls && OwnEffect(s.calls[action.id], action).Some?
    ensures var s' := Step(s, action).value;
      && s'.calls == s.calls[action.id := OwnEffect(s.calls[action.id], action).value]
      && s'.loop == s.loop && s'.arrivals == s.arrivals && s'.closers == s.closers
      && s'.sent == (if action.Send? then s.sent + {action.id} else s.sent)
  {
    hide ReadStep, TickStep;
  }

  lemma SentKept(s: State, action: Action)
    requires SentOk(s) && Step(s, action).Some?
    ensures SentOk(Step(s, action).value)
  {
    hide ReadStep, TickStep;
    if IsOwn(action) {
      OwnKeepsSent(s, action);
    } else if action.Arrive? {
      ArriveKeepsSent(s, action.line);
    } else if action.Register? || action.Deliver? || action.DeliverPut? || action.DeliverDone? {
      LoopKeepsSent(s, action);
    } else {
      ClosersKeepSent(s, action);
    }
  }

  lemma OwnKeepsSent(s: State, action: Action)
    requires SentOk(s) && IsOwn(action) && Step(s, action).Some?
    ensures SentOk(Step(s, action).value)
  {
    OwnStepIsOwnEffect(s, action);
    OwnEffectKeepsReader(s.calls[action.id], action);
    hide Step, OwnEffect, IsOwn;
  }

  lemma OwnEffectKeepsReader(call: Call, action: Action)
    requires OwnEffect(call, action).Some?
    ensures SameReader(call, OwnEffect(call, action).value)
  {
    hide ReadStep, TickStep;
    if action.Read? {
      OwnStepKeepsReader(call, action.parses);
    } else {
      OwnStepKeepsReader(call, false);
    }
  }

  lemma ArriveKeepsSent(s: State, line: Line)
    requires SentOk(s) && Step(s, Arrive(line)).Some?
    ensures SentOk(Step(s, Arrive(line)).value)
  {
    var s' := Step(s, Arrive(line)).value;
    assert forall i :: 0 <= i < |s.arrivals| ==> s'.arrivals[i] == s.arrivals[i];
  }

  lemma LoopKeepsSent(s: State, action: Action)
    requires SentOk(s) && Step(s, action).Some?
    requires action.Register? || action.Deliver? || action.DeliverPut? || action.DeliverDone?
    ensures SentOk(Step(s, action).value)
  {
  }

  lemma ClosersKeepSent(s: State, action: Action)
    requires SentOk(s) && Step(s, action).Some?
    requires action.CloseCheck? || action.CloseFlag? || action.CloseCall? || action.ClosePut? || action.ClearReaders?
    ensures SentOk(Step(s, action).value)
  {
  }

  lemma {:induction false} NoneAddressed(arrivals: seq<Line>, id: nat, session: string)
    requires forall i :: 0 <= i < |arrivals| ==> arrivals[i].event != BackwardsResponse || arrivals[i].requestId != Some(id)
    ensures Addressed(arrivals, id, session) == []
  {
    if arrivals != [] {
      NoneAddressed(arrivals[..|arrivals| - 1], id, session);
    }
  }

  lemma PayloadsSnoc(lines: seq<Line>, line: Line)
    ensures Payloads(lines + [line]) == Payloads(lines) + if line.response.Reply? then [line.response.data] else []
  {
    assert (lines + [line])[..|lines|] == lines;
  }

  /** Taking the head of the queue does not change what was received. */
  lemma TakeKeepsReceived(taken: seq<Line>, queue: seq<Option<Line>>)
    requires queue != []
    ensures taken + Waits(queue)
         == (if queue[0].Some? then taken + [queue[0].value] else taken) + Waits(queue[1..])
  {
    assert queue == [queue[0]] + queue[1..];
    FilterReader.MessagesAppend([queue[0]], queue[1..]);
    FilterReader.MessagesOne(queue[0]);
    if queue[0].Some? {
      assert taken + ([queue[0].value] + Waits(queue[1..])) == taken + [queue[0].value] + Waits(queue[1..]);
    }
  }

  lemma ConvertConverted(call: Call, line: Line, parses: bool)
    requires call.pc == AtGet && Converted(call)
    ensures Converted(Convert(call, line, parses))
    ensures var call' := Convert(call, line, parses);
      SameReader(call, call') && call'.queue == call.queue && call'.taken == call.taken + [line]
  {
    hide Payloads;
    PayloadsSnoc(call.taken, line);
    assert (call.taken + [line])[..|call.taken|] == call.taken;
  }

  lemma ReadKeepsCall(call: Call, parses: bool)
    requires ReadStep(call, parses).Some? && Converted(call)
    requires (call.pc == AtEmptyCheck ==> call.closed) && (None in call.queue ==> call.closed)
    ensures var call' := ReadStep(call, parses).value;
      && Converted(call') && SameReader(call, call') && Received(call') == Received(call)
      && (call'.pc == AtEmptyCheck ==> call'.closed) && (None in call'.queue ==> call'.closed)
  {
    hide Payloads, Waits;
    if call.pc == AtGet {
      TakeKeepsReceived(call.taken, call.queue);
      var shorter := call.(queue := call.queue[1..]);
      if call.queue[0].Some? {
        ConvertConverted(shorter, call.queue[0].value, parses);
        hide Convert;
      }
    }
  }

  /** Where the generator of the call's reader is, while the call waits for it. */
  function ReaderPc(pc: CallPc): Option<FilterReader.ReaderPc> {
    match pc
    case AtClosedCheck => Some(FilterReader.AtClosedCheck)
    case AtEmptyCheck => Some(FilterReader.AtEmptyCheck)
    case AtGet => Some(FilterReader.AtGet)
    case _ => None
  }

  /** A call reads as its filter reader's generator does: it takes the same entry, leaves when
      the generator ends, and converts what the generator yields. */
  lemma ReadsAsItsReader(call: Call, parses: bool, reader: FilterReader.State<Line>)
    requires ReaderPc(call.pc) == Some(reader.reader)
    requires reader.queue == call.queue && reader.closed == call.closed
    ensures
      match FilterReader.ReadStep(reader)
      case None => ReadStep(call, parses).None?
      case Some(next) =>
        && ReadStep(call, parses).Some?
        && var call' := ReadStep(call, parses).value;
           && call'.queue == next.queue
           && match next.reader
              case Ended => call'.pc == Left(ReaderClosed) && call'.taken == call.taken
              case Yielded => call' == Convert(call.(queue := next.queue), next.yielded[|next.yielded| - 1], parses)
              case pc => ReaderPc(call'.pc) == Some(pc) && call'.taken == call.taken
  {
  }

  lemma DeliveredSame(id: nat, call: Call, call': Call, loop: Loop, arrivals: seq<Line>)
    requires Delivered(id, call, loop, arrivals) && SameReader(call, call') && Received(call') == Received(call)
    ensures Delivered(id, call', loop, arrivals)
  {
  }

  lemma OwnEffectKeeps(call: Call, action: Action)
    requires IsOwn(action) && OwnEffect(call, action).Some? && Converted(call)
    requires (call.pc == AtEmptyCheck ==> call.closed) && (None in call.queue ==> call.closed)
    ensures var call' := OwnEffect(call, action).value;
      && Converted(call') && SameReader(call, call') && Received(call') == Received(call)
      && (call'.pc == AtEmptyCheck ==> call'.closed) && (None in call'.queue ==> call'.closed)
  {
    if action.Read? {
      hide Converted, Received, SameReader;
      ReadKeepsCall(call, action.parses);
    } else {
      hide ReadStep, Waits, Payloads;
    }
  }

  lemma OwnStepKeeps(s: State, action: Action)
    requires Inv(s) && Step(s, action).Some? && IsOwn(action)
    ensures forall id :: id in Step(s, action).value.calls ==> CallOk(Step(s, action).value, id)
  {
    var s' := Step(s, action).value;
    OwnStepIsOwnEffect(s, action);
    hide Step, OwnEffect, Delivered, Converted, Received, IsOwn;
    forall id | id in s'.calls
      ensures CallOk(s', id)
    {
      assert CallOk(s, id);
      if id == action.id {
        OwnEffectKeeps(s.calls[id], action);
        DeliveredSame(id, s.calls[id], s'.calls[id], s.loop, s.arrivals);
      }
    }
  }

  // ---- Steps of the event loop and of closers.

  lemma AddressedSnoc(arrivals: seq<Line>, line: Line, id: nat, call: Call)
    ensures Addressed(arrivals + [line], id, call.session)
         == Addressed(arrivals, id, call.session) + if Matches(id, call, line) then [line] else []
  {
    assert (arrivals + [line])[..|arrivals|] == arrivals;
  }

  lemma ArriveKeeps(s: State, line: Line, id: nat)
    requires SentOk(s) && id in s.calls && CallOk(s, id) && Step(s, Arrive(line)).Some?
    ensures CallOk(Step(s, Arrive(line)).value, id)
  {
    var call := s.calls[id];
    hide Addressed, Received, Converted;
    AddressedSnoc(s.arrivals, line, id, call);
    assert !InHand(s.loop, id);
  }

  lemma RegisterKeeps(s: State, action: Action)
    requires SentOk(s) && action.Register? && Step(s, action).Some?
    ensures CallOk(Step(s, action).value, action.id)
  {
    hide Addressed;
    NoneAddressed(s.arrivals, action.id, action.session);
    assert Waits([]) == [];
    assert !InHand(s.loop, action.id);
  }

  lemma PutKeeps(s: State, e: Option<Line>, id: nat, call': Call)
    requires id in s.calls && call' == s.calls[id].(queue := s.calls[id].queue + [e])
    ensures Received(call') == Received(s.calls[id]) + if e.Some? then [e.value] else []
    ensures None in call'.queue ==> None in s.calls[id].queue || e.None?
  {
    hide FilterReader.Messages;
    var queue := s.calls[id].queue;
    FilterReader.MessagesAppend(queue, [e]);
    FilterReader.MessagesOne(e);
    assert s.calls[id].taken + (Waits(queue) + if e.Some? then [e.value] else [])
        == s.calls[id].taken + Waits(queue) + if e.Some? then [e.value] else [];
  }

  lemma DeliverPutKeeps(s: State, id: nat)
    requires SentOk(s) && id in s.calls && CallOk(s, id) && Step(s, DeliverPut).Some?
    ensures CallOk(Step(s, DeliverPut).value, id)
  {
    var s' := Step(s, DeliverPut).value;
    hide Addressed, Converted;
    if id == s.loop.id {
      PutKeeps(s, Some(s.loop.line), id, s'.calls[id]);
      ConvertedQueue(s.calls[id], s'.calls[id]);
    }
    hide Received;
  }

  lemma ConvertedQueue(call: Call, call': Call)
    requires Converted(call)
    requires call' == call.(queue := call'.queue) || call' == call.(attached := call'.attached)
          || (call' == call.(closed := true))
    ensures Converted(call')
  {
  }

  lemma CloserKeeps(s: State, action: Action, id: nat)
    requires SentOk(s) && id in s.calls && CallOk(s, id) && Step(s, action).Some?
    requires action.CloseFlag? || action.CloseCall? || action.ClosePut? || action.CloseCheck? || action.ClearReaders?
    ensures id in Step(s, action).value.calls && CallOk(Step(s, action).value, id)
  {
    var s' := Step(s, action).value;
    hide Addressed, Converted;
    if action.ClosePut? && id == s.closers[action.token].0 {
      PutKeeps(s, None, id, s'.calls[id]);
    }
    ConvertedQueue(s.calls[id], s'.calls[id]);
    hide Received;
  }

  lemma DeliverKeeps(s: State, action: Action, id: nat)
    requires SentOk(s) && id in s.calls && CallOk(s, id) && Step(s, action).Some?
    requires action.Deliver? || action.DeliverDone?
    ensures CallOk(Step(s, action).value, id)
  {
    hide Addressed, Converted, Received;
  }

  lemma StepKeepsInv(s: State, action: Action)
    requires Inv(s) && Step(s, action).Some?
    ensures Inv(Step(s, action).value)
  {
    SentKept(s, action);
    var s' := Step(s, action).value;
    if IsOwn(action) {
      OwnStepKeeps(s, action);
    } else {
      StepKeepsCalls(s, action);
      hide CallOk, Step;
      forall id | id in s'.calls
        ensures CallOk(s', id)
      {
        if action.Register? && id == action.id {
          RegisterKeeps(s, action);
        } else if action.Register? {
          RegisterKeepsOthers(s, action, id);
        } else {
          match action
          case Arrive(line) => ArriveKeeps(s, line, id);
          case DeliverPut => DeliverPutKeeps(s, id);
          case Deliver(_) => DeliverKeeps(s, action, id);
          case DeliverDone => DeliverKeeps(s, action, id);
          case _ => CloserKeeps(s, action, id);
        }
      }
    }
  }

  lemma StepKeepsCalls(s: State, action: Action)
    requires Step(s, action).Some? && !IsOwn(action)
    ensures Step(s, action).value.calls.Keys == s.calls.Keys + if action.Register? then {action.id} else {}
  {
  }

  lemma RegisterKeepsOthers(s: State, action: Action, id: nat)
    requires action.Register? && Step(s, action).Some? && id in s.calls && CallOk(s, id)
    ensures CallOk(Step(s, action).value, id)
  {
  }

  lemma {:induction false} RunKeepsInv(actions: seq<Action>)
    requires Run(actions).Some?
    ensures Inv(Run(actions).value)
  {
    hide Step, CallOk;
    if actions != [] {
      RunKeepsInv(actions[..|actions| - 1]);
      StepKeepsInv(Run(actions[..|actions| - 1]).value, actions[|actions| - 1]);
    }
  }

  /** The lines that arrived, in order. */
  function Arrived(actions: seq<Action>): seq<Line> {
    if actions == [] then []
    else
      var last := actions[|actions| - 1];
      Arrived(actions[..|actions| - 1]) + if last.Arrive? then [last.line] else []
  }

  lemma {:induction false} RunKeepsArrivals(actions: seq<Action>)
    requires Run(actions).Some?
    ensures Run(actions).value.arrivals == Arrived(actions)
    ensures forall id :: id in Run(actions).value.calls ==>
      var call := Run(actions).value.calls[id]; Register(id, call.session, call.limit) in actions
  {
    if actions != [] {
      var before, action := actions[..|actions| - 1], actions[|actions| - 1];
      RunKeepsArrivals(before);
      assert actions == before + [action];
      StepArrivals(Run(before).value, action);
      hide Step;
    }
  }

  lemma StepArrivals(s: State, action: Action)
    requires Step(s, action).Some?
    ensures var s' := Step(s, action).value;
      && s'.arrivals == s.arrivals + (if action.Arrive? then [action.line] else [])
      && forall id :: id in s'.calls ==>
           || (id in s.calls && s'.calls[id].session == s.calls[id].session && s'.calls[id].limit == s.calls[id].limit)
           || action == Register(id, s'.calls[id].session, s'.calls[id].limit)
  {
    if IsOwn(action) {
      OwnStepIsOwnEffect(s, action);
      OwnEffectKeepsReader(s.calls[action.id], action);
      OwnEffectKeepsLimit(s.calls[action.id], action);
      hide Step, OwnEffect;
    }
  }

  lemma OwnEffectKeepsLimit(call: Call, action: Action)
    requires OwnEffect(call, action).Some?
    ensures OwnEffect(call, action).value.limit == call.limit
  {
  }

  /** Every invocation of every run, at every moment: what it took is a prefix of all the
      responses that ever arrived for it, none missed, none of anyone else's; what it
      yielded is their payloads; and it left at the first end, error or empty response, at
      a timeout, because its reader was closed, or because its own side stopped. */
  lemma EachCallSeesItsOwnResponses(actions: seq<Action>, id: nat)
    requires Run(actions).Some? && id in Run(actions).value.calls
    ensures var s := Run(actions).value;
      var call := s.calls[id];
      var due := Addressed(Arrived(actions), id, call.session);
      && Register(id, call.session, call.limit) in actions
      && call.taken <= due
      && Converted(call)
      && (call.attached && !call.closed && !InHand(s.loop, id) ==> call.taken + Waits(call.queue) == due)
  {
    RunKeepsInv(actions);
    RunKeepsArrivals(actions);
    var s := Run(actions).value;
    assert CallOk(s, id);
    hide Addressed, Converted, Waits, Arrived;
    assert s.calls[id].taken <= Received(s.calls[id]);
  }

  /** So an invocation that ran to its end yielded exactly the payloads before the first
      response that ends it. */
  lemma EndedCallYieldsUpToTheEnd(actions: seq<Action>, id: nat)
    requires Run(actions).Some? && id in Run(actions).value.calls
    requires Ended(Run(actions).value.calls[id].pc)
    ensures var s := Run(actions).value;
      var due := Addressed(Arrived(actions), id, s.calls[id].session);
      var n := FirstStop(due);
      && n < |due| && s.calls[id].taken == due[..n + 1] && s.calls[id].yielded == Payloads(due[..n])
      && EndingOf(due[n].response, s.calls[id].pc)
  {
    hide Addressed, Payloads, FirstStop, Step, Run, Waits, Converted, Arrived;
    EachCallSeesItsOwnResponses(actions, id);
    var s := Run(actions).value;
    StopsAtFirst(s.calls[id], Addressed(Arrived(actions), id, s.calls[id].session));
  }

  /** The end mark and missing data end an invocation normally; an error raises its message. */
  predicate EndingOf(response: LineConverter.Response, pc: CallPc) {
    match response
    case End => pc == Left(GotEnd)
    case NoData => pc == Left(GotNoData)
    case Error(message) => pc == Left(GotError(message))
    case Reply(_) => false
  }

  lemma StopsAtFirst(call: Call, due: seq<Line>)
    requires call.taken <= due && Converted(call)
    requires Ended(call.pc)
    ensures var n := FirstStop(due);
      && n < |due| && call.taken == due[..n + 1] && call.yielded == Payloads(due[..n])
      && EndingOf(due[n].response, call.pc)
  {
    hide Payloads, FirstStop;
    var n := |call.taken| - 1;
    assert call.taken[..n] == due[..n] && call.taken[n] == due[n];
    assert forall i :: 0 <= i < n ==> due[i] == call.taken[i] == call.taken[..n][i];
    FirstStopIs(due, n);
  }

  /** The first response that is not a reply. */
  function FirstStop(lines: seq<Line>): (n: nat)
    ensures n <= |lines|
  {
    if lines == [] || !lines[0].response.Reply? then 0 else 1 + FirstStop(lines[1..])
  }

  lemma {:induction false} FirstStopIs(lines: seq<Line>, n: nat)
    requires n < |lines| && !lines[n].response.Reply? && forall i :: 0 <= i < n ==> lines[i].response.Reply?
    ensures FirstStop(lines) == n
  {
    if n > 0 {
      FirstStopIs(lines[1..], n - 1);
    }
  }

  // ---- Each call converts what its rounds bring, as the converter's loop does.

  /** Left because of what the last round brought. */
  predicate Concluded(pc: CallPc) {
    Ended(pc) || pc == Left(TimedOut) || pc == Left(ParseFailed)
  }

  predicate IsReply(chunk: LineConverter.Chunk) {
    chunk.Some? && chunk.value.Reply?
  }

  /** Only a call that has ended has heard anything but replies, and that last. */
  ghost predicate EndsOk(call: Call) {
    var n := |call.rounds|;
    && (forall k :: 0 <= k < n && call.rounds[k].Some? && !IsReply(call.rounds[k]) ==> Ended(call.pc) && k == n - 1)
    && (Ended(call.pc) ==>
          && n > 0 && call.rounds[n - 1].Some?
          && EndingOf(call.rounds[n - 1].value, call.pc))
    && (call.pc == Left(ParseFailed) ==> n > 0 && IsReply(call.rounds[n - 1]))
  }

  /** The count is that of the empty rounds at the end. */
  ghost predicate CountOk(call: Call) {
    var n := |call.rounds|;
    && (!Ended(call.pc) ==>
          && call.empties <= n
          && (forall k :: n - call.empties <= k < n ==> call.rounds[k].None?)
          && (call.empties < n ==> call.rounds[n - call.empties - 1].Some?))
    && (call.pc != Left(TimedOut) && call.empties > 0 ==> call.empties < call.limit)
  }

  /** A call has timed out exactly if its last rounds were silent for too long, and it never
      was before. */
  ghost predicate SilenceOk(call: Call) {
    var n := |call.rounds|;
    && (call.pc == Left(TimedOut) ==> n > 0 && LineConverter.Silent(call.rounds, call.limit, n - 1))
    && (forall k :: 0 <= k < n && LineConverter.Silent(call.rounds, call.limit, k) ==> call.pc == Left(TimedOut) && k == n - 1)
  }

  ghost predicate RoundsOk(call: Call) {
    && LineConverter.Payloads(call.rounds) == Payloads(call.taken)
    && EndsOk(call) && CountOk(call) && SilenceOk(call)
  }

  lemma SilentBefore(rounds: seq<LineConverter.Chunk>, chunk: LineConverter.Chunk, limit: int, k: nat)
    requires k < |rounds|
    ensures LineConverter.Silent(rounds + [chunk], limit, k) <==> LineConverter.Silent(rounds, limit, k)
  {
    assert forall i :: 0 <= i <= k ==> (rounds + [chunk])[i] == rounds[i];
  }

  lemma PayloadsOfRounds(rounds: seq<LineConverter.Chunk>, chunk: LineConverter.Chunk)
    ensures LineConverter.Payloads(rounds + [chunk])
         == LineConverter.Payloads(rounds) + if chunk.Some? && chunk.value.Reply? then [chunk.value.data] else []
  {
    assert (rounds + [chunk])[..|rounds|] == rounds;
  }

  lemma TickRounds(call: Call)
    requires TickStep(call).Some?
    ensures var call' := TickStep(call).value;
      && call.pc == AtGet && call'.rounds == call.rounds + [None] && call'.taken == call.taken
      && call'.limit == call.limit && call'.empties == call.empties + 1
      && (if call'.empties >= call.limit then call'.pc == Left(TimedOut) else call'.pc == AtClosedCheck)
  {
  }

  lemma TickKeepsRounds(call: Call)
    requires RoundsOk(call) && TickStep(call).Some?
    ensures RoundsOk(TickStep(call).value)
  {
    hide TickStep, Payloads, LineConverter.Payloads, EndsOk, CountOk, SilenceOk;
    TickRounds(call);
    PayloadsOfRounds(call.rounds, None);
    TickKeepsEnds(call, TickStep(call).value);
    TickKeepsCount(call, TickStep(call).value);
    TickKeepsSilence(call, TickStep(call).value);
  }

  lemma TickKeepsEnds(call: Call, call': Call)
    requires EndsOk(call) && call.pc == AtGet && call'.rounds == call.rounds + [None]
    requires call'.pc == AtClosedCheck || call'.pc == Left(TimedOut)
    ensures EndsOk(call')
  {
  }

  lemma TickKeepsCount(call: Call, call': Call)
    requires CountOk(call) && !Ended(call.pc) && call'.rounds == call.rounds + [None]
    requires call'.empties == call.empties + 1 && call'.limit == call.limit
    requires call'.pc == Left(TimedOut) || call'.empties < call.limit
    ensures CountOk(call')
  {
  }

  /** The new round is silent for too long exactly if the count has reached the limit. */
  lemma SilentNow(call: Call)
    requires CountOk(call) && !Ended(call.pc)
    ensures LineConverter.Silent(call.rounds + [None], call.limit, |call.rounds|) <==> call.empties + 1 >= call.limit
  {
    var rounds, n := call.rounds + [None], |call.rounds|;
    if call.empties + 1 < call.limit && call.empties < n {
      assert rounds[n - call.empties - 1].Some?;
    }
  }

  lemma TickKeepsSilence(call: Call, call': Call)
    requires SilenceOk(call) && CountOk(call) && call.pc == AtGet && call'.rounds == call.rounds + [None]
    requires call'.limit == call.limit && (call'.pc == Left(TimedOut) <==> call.empties + 1 >= call.limit)
    ensures SilenceOk(call')
  {
    SilentNow(call);
    forall k | 0 <= k < |call.rounds|
      ensures LineConverter.Silent(call'.rounds, call.limit, k) <==> LineConverter.Silent(call.rounds, call.limit, k)
    {
      SilentBefore(call.rounds, None, call.limit, k);
    }
    hide LineConverter.Silent, CountOk;
  }

  lemma ConvertKeepsRounds(call: Call, line: Line, parses: bool)
    requires RoundsOk(call) && call.pc == AtGet
    ensures RoundsOk(Convert(call, line, parses))
  {
    hide Convert, Payloads, LineConverter.Payloads, EndsOk, CountOk, SilenceOk;
    ConvertRounds(call, line, parses);
    PayloadsSnoc(call.taken, line);
    PayloadsOfRounds(call.rounds, Some(line.response));
    ConvertKeepsEnds(call, line, parses);
    ConvertKeepsCount(call, line, parses);
    ConvertKeepsSilence(call, line, parses);
  }

  lemma ConvertRounds(call: Call, line: Line, parses: bool)
    ensures var call' := Convert(call, line, parses);
      && call'.rounds == call.rounds + [Some(line.response)] && call'.limit == call.limit
      && call'.taken == call.taken + [line]
      && (if line.response.Reply? then call'.empties == 0 && (call'.pc == AtYield || call'.pc == Left(ParseFailed))
          else call'.empties == call.empties && EndingOf(line.response, call'.pc))
  {
  }

  lemma ConvertKeepsEnds(call: Call, line: Line, parses: bool)
    requires EndsOk(call) && call.pc == AtGet
    ensures EndsOk(Convert(call, line, parses))
  {
    hide Convert;
    ConvertRounds(call, line, parses);
  }

  lemma ConvertKeepsCount(call: Call, line: Line, parses: bool)
    requires CountOk(call) && call.pc == AtGet
    ensures CountOk(Convert(call, line, parses))
  {
    hide Convert;
    ConvertRounds(call, line, parses);
  }

  lemma ConvertKeepsSilence(call: Call, line: Line, parses: bool)
    requires SilenceOk(call) && call.pc == AtGet
    ensures SilenceOk(Convert(call, line, parses))
  {
    NotSilentAfter(call.rounds, Some(line.response), call.limit);
    hide Convert, LineConverter.Silent;
    ConvertRounds(call, line, parses);
  }

  lemma NotSilentAfter(rounds: seq<LineConverter.Chunk>, chunk: LineConverter.Chunk, limit: int)
    requires chunk.Some?
    ensures forall k :: 0 <= k < |rounds| ==>
      (LineConverter.Silent(rounds + [chunk], limit, k) <==> LineConverter.Silent(rounds, limit, k))
    ensures !LineConverter.Silent(rounds + [chunk], limit, |rounds|)
  {
    forall k | 0 <= k < |rounds|
      ensures LineConverter.Silent(rounds + [chunk], limit, k) <==> LineConverter.Silent(rounds, limit, k)
    {
      SilentBefore(rounds, chunk, limit, k);
    }
  }

  /** What the call's own bookkeeping looks like apart from the reader's side of it. */
  predicate SameConverter(call: Call, call': Call) {
    && call'.limit == call.limit && call'.pc == call.pc && call'.empties == call.empties
    && call'.taken == call.taken && call'.rounds == call.rounds && call'.yielded == call.yielded
  }

  /** A step that is not a round. */
  predicate SameRounds(call: Call, call': Call) {
    && call'.limit == call.limit && call'.empties == call.empties
    && call'.taken == call.taken && call'.rounds == call.rounds
    && !Concluded(call.pc) && !Concluded(call'.pc)
  }

  lemma SameRoundsKeeps(call: Call, call': Call)
    requires RoundsOk(call) && (SameRounds(call, call') || SameConverter(call, call'))
    ensures RoundsOk(call')
  {
    hide Payloads, LineConverter.Payloads, LineConverter.Silent;
  }

  lemma OtherEffectIsNoRound(call: Call, action: Action)
    requires IsOwn(action) && OwnEffect(call, action).Some? && !action.Tick?
    requires !(action.Read? && call.pc == AtGet && call.queue[0].Some?)
    ensures SameRounds(call, OwnEffect(call, action).value)
  {
    hide Convert, TickStep;
  }

  lemma OwnEffectKeepsRounds(call: Call, action: Action)
    requires IsOwn(action) && OwnEffect(call, action).Some? && RoundsOk(call)
    ensures RoundsOk(OwnEffect(call, action).value)
  {
    hide RoundsOk, SameRounds, Convert;
    if action.Tick? {
      TickKeepsRounds(call);
    } else if action.Read? && call.pc == AtGet && call.queue[0].Some? {
      var shorter := call.(queue := call.queue[1..]);
      QueueIsNoRound(call, shorter);
      ConvertKeepsRounds(shorter, call.queue[0].value, action.parses);
    } else {
      OtherEffectIsNoRound(call, action);
      SameRoundsKeeps(call, OwnEffect(call, action).value);
    }
  }

  lemma QueueIsNoRound(call: Call, call': Call)
    requires RoundsOk(call) && call' == call.(queue := call'.queue)
    ensures RoundsOk(call')
  {
    SameRoundsKeeps(call, call');
  }

  lemma OthersLeaveConverter(s: State, action: Action, id: nat)
    requires !IsOwn(action) && Step(s, action).Some? && id in s.calls
    ensures id in Step(s, action).value.calls && SameConverter(s.calls[id], Step(s, action).value.calls[id])
  {
  }

  lemma StepKeepsRounds(s: State, action: Action)
    requires Step(s, action).Some? && forall id :: id in s.calls ==> RoundsOk(s.calls[id])
    ensures forall id :: id in Step(s, action).value.calls ==> RoundsOk(Step(s, action).value.calls[id])
  {
    var s' := Step(s, action).value;
    if IsOwn(action) {
      OwnStepIsOwnEffect(s, action);
      OwnEffectKeepsRounds(s.calls[action.id], action);
      hide Step, RoundsOk, OwnEffect;
    } else {
      StepKeepsCalls(s, action);
      forall id | id in s'.calls
        ensures RoundsOk(s'.calls[id])
      {
        if id in s.calls {
          OthersLeaveConverter(s, action, id);
          SameRoundsKeeps(s.calls[id], s'.calls[id]);
        } else {
          NewCallRounds(s, action);
        }
      }
    }
  }

  lemma NewCallRounds(s: State, action: Action)
    requires action.Register? && Step(s, action).Some?
    ensures RoundsOk(Step(s, action).value.calls[action.id])
  {
  }

  lemma {:induction false} RunKeepsRounds(actions: seq<Action>)
    requires Run(actions).Some?
    ensures forall id :: id in Run(actions).value.calls ==> RoundsOk(Run(actions).value.calls[id])
  {
    hide Step, RoundsOk;
    if actions != [] {
      RunKeepsRounds(actions[..|actions| - 1]);
      StepKeepsRounds(Run(actions[..|actions| - 1]).value, actions[|actions| - 1]);
    }
  }

  /** `parse` accepts and refuses payloads as the call's rounds did. */
  ghost predicate ParsesLike(call: Call, parse: string -> bool) {
    forall k :: 0 <= k < |call.rounds| && IsReply(call.rounds[k]) ==>
      (parse(call.rounds[k].value.data) <==> !(call.pc == Left(ParseFailed) && k == |call.rounds| - 1))
  }

  /** The loop over the rounds of a call is the converter's: it has not stopped while the call
      is going on, was stopped by its consumer or had its reader closed; otherwise the call's
      last round is the first one the converter stops at, and says how the call left. Either
      way it yielded the payloads before that. */
  lemma CallsConvertTheirRounds(actions: seq<Action>, id: nat, parse: string -> bool)
    requires Run(actions).Some? && id in Run(actions).value.calls
    requires ParsesLike(Run(actions).value.calls[id], parse)
    ensures var call := Run(actions).value.calls[id];
      var n := |call.rounds|;
      var stop := LineConverter.FirstStop(call.rounds, call.limit, parse, 0);
      && call.yielded == LineConverter.Payloads(call.rounds[..stop])
      && (Concluded(call.pc) <==> stop < n)
      && (stop < n ==> stop == n - 1)
      && (stop < n ==>
            match call.rounds[stop]
            case None => call.pc == Left(TimedOut)
            case Some(End) => call.pc == Left(GotEnd)
            case Some(NoData) => call.pc == Left(GotNoData)
            case Some(Error(message)) => call.pc == Left(GotError(message))
            case Some(Reply(_)) => call.pc == Left(ParseFailed))
  {
    RunKeepsRounds(actions);
    EachCallSeesItsOwnResponses(actions, id);
    hide Run, Addressed, Converted, RoundsOk, Payloads, LineConverter.Payloads, LineConverter.FirstStop;
    var call := Run(actions).value.calls[id];
    LastRound(call);
    StopsAtItsLast(call, parse);
    YieldsBeforeItsLast(call);
    assert call.rounds[..|call.rounds|] == call.rounds;
  }

  /** The last round of a call that has left says why. */
  lemma LastRound(call: Call)
    requires RoundsOk(call)
    ensures Concluded(call.pc) ==> call.rounds != []
    ensures Concluded(call.pc) ==>
      match call.rounds[|call.rounds| - 1]
      case None => call.pc == Left(TimedOut)
      case Some(Reply(_)) => call.pc == Left(ParseFailed)
      case Some(response) => EndingOf(response, call.pc)
  {
    hide Payloads, LineConverter.Payloads;
  }

  lemma StopsAtItsLast(call: Call, parse: string -> bool)
    requires RoundsOk(call) && ParsesLike(call, parse)
    ensures var n := |call.rounds|;
      LineConverter.FirstStop(call.rounds, call.limit, parse, 0) == if Concluded(call.pc) then n - 1 else n
  {
    var n := |call.rounds|;
    hide LineConverter.Payloads, Payloads, LineConverter.FirstStop;
    LineConverter.FirstStopIs(call.rounds, call.limit, parse, if Concluded(call.pc) then n - 1 else n);
  }

  lemma SameButLast(a: seq<string>, x: string, b: seq<string>, y: string)
    requires a + [x] == b + [y]
    ensures a == b
  {
    assert a == (a + [x])[..|a + [x]| - 1] == (b + [y])[..|b + [y]| - 1] == b;
  }

  lemma YieldsBeforeItsLast(call: Call)
    requires RoundsOk(call) && Converted(call)
    ensures var n := |call.rounds|;
      call.yielded == LineConverter.Payloads(if Concluded(call.pc) then call.rounds[..n - 1] else call.rounds)
  {
    var n, m := |call.rounds|, |call.taken|;
    hide CountOk, Payloads, LineConverter.Payloads;
    if Concluded(call.pc) {
      var before := call.rounds[..n - 1];
      assert call.rounds == before + [call.rounds[n - 1]];
      PayloadsOfRounds(before, call.rounds[n - 1]);
      if call.pc != Left(TimedOut) {
        assert call.taken == call.taken[..m - 1] + [call.taken[m - 1]];
        PayloadsSnoc(call.taken[..m - 1], call.taken[m - 1]);
      }
      if call.pc == Left(ParseFailed) {
        SameButLast(LineConverter.Payloads(before), call.rounds[n - 1].value.data,
                    Payloads(call.taken[..m - 1]), call.taken[m - 1].response.data);
      } else {
        assert LineConverter.Payloads(before) == LineConverter.Payloads(call.rounds);
      }
    }
  }

  /** A call that timed out heard nothing in its last rounds, as many as its timeout, and had
      never heard nothing for that long before. */
  lemma TimedOutMeansSilence(actions: seq<Action>, id: nat)
    requires Run(actions).Some? && id in Run(actions).value.calls
    ensures var call := Run(actions).value.calls[id];
      var n := |call.rounds|;
      && (call.pc == Left(TimedOut) <==> n > 0 && LineConverter.Silent(call.rounds, call.limit, n - 1))
      && (forall k :: 0 <= k < n - 1 ==> !LineConverter.Silent(call.rounds, call.limit, k))
  {
    RunKeepsRounds(actions);
  }

  // ---- Nothing on the bus is ever stuck.

  /** A call that has not left can go on by itself; with nothing to read, by its timeout. */
  lemma CallsGoOn(s: State, id: nat)
    requires id in s.calls && !s.calls[id].pc.Left?
    ensures
      match s.calls[id].pc
      case Registered => Step(s, Send(id)).Some?
      case Sending => forall ok :: Step(s, SendDone(id, ok)).Some?
      case AtYield => forall goOn :: Step(s, Resume(id, goOn)).Some?
      case AtGet => if s.calls[id].queue == [] then Step(s, Tick(id)).Some? else forall parses :: Step(s, Read(id, parses)).Some?
      case _ => forall parses :: Step(s, Read(id, parses)).Some?
  {
    hide Convert;
  }

  /** What a call finds at the head of its queue decides what it does. */
  lemma HeadDecides(s: State, id: nat, parses: bool)
    requires id in s.calls && s.calls[id].pc == AtGet && s.calls[id].queue != []
    ensures Step(s, Read(id, parses)).Some?
    ensures var s', call := Step(s, Read(id, parses)).value, s.calls[id];
      id in s'.calls &&
      var call' := s'.calls[id];
      match call.queue[0]
      case None => call'.pc == Left(ReaderClosed) && call'.yielded == call.yielded
      case Some(line) =>
        if line.response.Reply? && parses then call'.pc == AtYield && call'.yielded == call.yielded + [line.response.data]
        else
          call'.yielded == call.yielded
          && if line.response.Reply? then call'.pc == Left(ParseFailed) else EndingOf(line.response, call'.pc)
  {
  }

  /** The event loop goes on with the line in its hand, and takes any line when it has none;
      a `close` can always begin, and goes on to its end. */
  lemma LoopAndClosersGoOn(s: State, line: Line, token: nat, id: nat)
    requires Inv(s)
    ensures
      match s.loop
      case Waiting => line.event == Request ==> Step(s, Arrive(line)).Some?
      case Checking(_, rest) => if rest == {} then Step(s, DeliverDone).Some? else forall id <- rest :: Step(s, Deliver(id)).Some?
      case Putting(_, _, _) => Step(s, DeliverPut).Some?
    ensures id in s.calls && token !in s.closers ==>
      Step(s, CloseCheck(token, id))
      == Some(if s.calls[id].closed then s else s.(closers := s.closers[token := (id, FilterReader.Checked)]))
    ensures token in s.closers ==>
      var (id, stage) := s.closers[token];
      match stage
      case Checked =>
        && Step(s, CloseFlag(token)).Some?
        && var s' := Step(s, CloseFlag(token)).value;
           s'.closers == s.closers[token := (id, FilterReader.Flagged)] && id in s'.calls && s'.calls[id].closed
      case Flagged =>
        && Step(s, CloseCall(token)).Some?
        && var s' := Step(s, CloseCall(token)).value;
           s'.closers == s.closers[token := (id, FilterReader.Called)] && id in s'.calls && !s'.calls[id].attached
      case Called =>
        && Step(s, ClosePut(token)).Some?
        && var s' := Step(s, ClosePut(token)).value;
           s'.closers == s.closers - {token} && id in s'.calls && None in s'.calls[id].queue
    ensures Step(s, ClearReaders).Some? && forall id <- Step(s, ClearReaders).value.calls :: !Step(s, ClearReaders).value.calls[id].attached
  {
    hide CallOk;
    if token in s.closers && s.closers[token].1.Called? {
      var queue := s.calls[s.closers[token].0].queue + [None];
      assert queue[|queue| - 1] == None;
    }
  }

  // ---- Every request can be answered in full.

  /** Some actions in a row. */
  function Steps(s: State, actions: seq<Action>): Option<State>
    decreases |actions|
  {
    if actions == [] then Some(s)
    else match Step(s, actions[0])
      case None => None
      case Some(next) => Steps(next, actions[1..])
  }

  lemma {:induction false} RunSteps(before: seq<Action>, after: seq<Action>)
    requires Run(before).Some?
    ensures Run(before + after) == Steps(Run(before).value, after)
    decreases |after|
  {
    hide Step;
    if after == [] {
      assert before + after == before;
    } else {
      assert (before + [after[0]])[..|before|] == before;
      assert before + after == before + [after[0]] + after[1..];
      if Step(Run(before).value, after[0]).Some? {
        RunSteps(before + [after[0]], after[1..]);
      } else {
        RunStuck(before + [after[0]], after[1..]);
      }
    }
  }

  lemma {:induction false} RunStuck(before: seq<Action>, after: seq<Action>)
    requires Run(before).None?
    ensures Run(before + after).None?
  {
    hide Step;
    if after == [] {
      assert before + after == before;
    } else {
      assert (before + after)[..|before + after| - 1] == before + after[..|after| - 1];
      RunStuck(before, after[..|after| - 1]);
    }
  }

  /** The request is out, and the reader has been handed nothing it has not read. */
  predicate Expecting(s: State, id: nat) {
    && id in s.calls && id in s.sent && s.loop == Waiting
    && s.calls[id].pc == AtClosedCheck && s.calls[id].attached && !s.calls[id].closed && s.calls[id].queue == []
  }

  /** A line arrives for this invocation alone and is put into its queue. */
  lemma Deliverable(s: State, id: nat, response: LineConverter.Response) returns (s': State)
    requires Expecting(s, id)
    ensures var line := Line(s.calls[id].session, BackwardsResponse, Some(id), response);
      && Steps(s, [Arrive(line), Deliver(id), DeliverPut, DeliverDone]) == Some(s')
      && s' == s.(arrivals := s.arrivals + [line], calls := s.calls[id := s.calls[id].(queue := [Some(line)])])
  {
    var line := Line(s.calls[id].session, BackwardsResponse, Some(id), response);
    hide ReadStep, TickStep, Convert, Steps;
    var s1 := Step(s, Arrive(line)).value;
    assert s1.loop == Checking(line, {id});
    var s2 := Step(s1, Deliver(id)).value;
    assert s2.loop == Putting(line, id, {});
    var s3 := Step(s2, DeliverPut).value;
    s' := Step(s3, DeliverDone).value;
    assert s.calls[id].queue + [Some(line)] == [Some(line)];
    FourSteps(s, Arrive(line), Deliver(id), DeliverPut, DeliverDone, s1, s2, s3, s');
  }

  lemma FourSteps(s: State, a: Action, b: Action, c: Action, d: Action, s1: State, s2: State, s3: State, s4: State)
    requires Step(s, a) == Some(s1) && Step(s1, b) == Some(s2) && Step(s2, c) == Some(s3) && Step(s3, d) == Some(s4)
    ensures Steps(s, [a, b, c, d]) == Some(s4)
  {
    hide Step;
    assert [a, b, c, d][1..] == [b, c, d] && [b, c, d][1..] == [c, d] && [c, d][1..] == [d] && [d][1..] == [];
    assert Steps(s4, []) == Some(s4);
    assert Steps(s3, [d]) == Some(s4);
    assert Steps(s2, [c, d]) == Some(s4);
  }

  lemma {:induction false} StepsJoin(s: State, a: seq<Action>, b: seq<Action>)
    requires Steps(s, a).Some?
    ensures Steps(s, a + b) == Steps(Steps(s, a).value, b)
    decreases |a|
  {
    hide Step;
    if a == [] {
      assert a + b == b;
    } else {
      assert (a + b)[1..] == a[1..] + b;
      StepsJoin(Step(s, a[0]).value, a[1..], b);
    }
  }

  /** Reading the only line in the queue and going on. */
  lemma ReadsReply(s: State, id: nat, line: Line) returns (s': State)
    requires id in s.calls && s.calls[id].queue == [Some(line)] && s.calls[id].pc == AtClosedCheck
    requires !s.calls[id].closed && line.response.Reply?
    ensures Steps(s, [Read(id, true), Read(id, true), Resume(id, true)]) == Some(s')
    ensures id in s'.calls
    ensures var call, call' := s.calls[id], s'.calls[id];
      && s' == s.(calls := s.calls[id := call'])
      && call'.pc == AtClosedCheck && call'.queue == [] && SameReader(call, call')
      && call'.yielded == call.yielded + [line.response.data]
  {
    hide TickStep;
    var s1 := Step(s, Read(id, true)).value;
    var s2 := Step(s1, Read(id, true)).value;
    s' := Step(s2, Resume(id, true)).value;
    hide Step;
    var last := [Resume(id, true)];
    assert Steps(s2, last) == Some(s') by { assert last[1..] == [] && Steps(s', []) == Some(s'); }
    assert Steps(s1, [Read(id, true)] + last) == Some(s') by { assert ([Read(id, true)] + last)[1..] == last; }
    assert [Read(id, true), Read(id, true), Resume(id, true)][1..] == [Read(id, true)] + last;
  }

  lemma ReadsEnd(s: State, id: nat, line: Line) returns (s': State)
    requires id in s.calls && s.calls[id].queue == [Some(line)] && s.calls[id].pc == AtClosedCheck
    requires !s.calls[id].closed && line.response == LineConverter.End
    ensures Steps(s, [Read(id, true), Read(id, true)]) == Some(s')
    ensures id in s'.calls && s'.calls[id].pc == Left(GotEnd) && s'.calls[id].yielded == s.calls[id].yielded
  {
    hide TickStep;
    var s1 := Step(s, Read(id, true)).value;
    s' := Step(s1, Read(id, true)).value;
    hide Step;
    var last := [Read(id, true)];
    assert Steps(s1, last) == Some(s') by { assert last[1..] == [] && Steps(s', []) == Some(s'); }
    assert [Read(id, true), Read(id, true)][1..] == last;
  }

  lemma {:induction false} AnswersAll(s: State, id: nat, replies: seq<string>) returns (more: seq<Action>)
    requires Expecting(s, id)
    ensures Steps(s, more).Some?
    ensures var s' := Steps(s, more).value;
      id in s'.calls && s'.calls[id].pc == Left(GotEnd) && s'.calls[id].yielded == s.calls[id].yielded + replies
    decreases |replies|
  {
    hide Step, Steps;
    var response := if replies == [] then LineConverter.End else LineConverter.Reply(replies[0]);
    var line := Line(s.calls[id].session, BackwardsResponse, Some(id), response);
    var s1 := Deliverable(s, id, response);
    var delivery := [Arrive(line), Deliver(id), DeliverPut, DeliverDone];
    if replies == [] {
      var s2 := ReadsEnd(s1, id, line);
      more := delivery + [Read(id, true), Read(id, true)];
      StepsJoin(s, delivery, [Read(id, true), Read(id, true)]);
    } else {
      var s2 := ReadsReply(s1, id, line);
      var reading := [Read(id, true), Read(id, true), Resume(id, true)];
      var rest := AnswersAll(s2, id, replies[1..]);
      more := delivery + (reading + rest);
      StepsJoin(s, delivery, reading + rest);
      StepsJoin(s1, reading, rest);
      assert s.calls[id].yielded + [replies[0]] + replies[1..] == s.calls[id].yielded + replies;
    }
  }

  /** Nothing in the protocol stands in the way of an answer: from any moment of any run at
      which the event loop is free, a new request can be sent and answered with any replies and
      an end, and its caller is then given exactly those replies and returns. */
  lemma EveryRequestCanBeAnswered(actions: seq<Action>, id: nat, session: string, limit: nat, replies: seq<string>)
    returns (more: seq<Action>)
    requires Run(actions).Some? && id !in Run(actions).value.calls && Run(actions).value.loop == Waiting
    ensures Run(actions + [Register(id, session, limit), Send(id), SendDone(id, true)] + more).Some?
    ensures var s := Run(actions + [Register(id, session, limit), Send(id), SendDone(id, true)] + more).value;
      id in s.calls && s.calls[id].pc == Left(GotEnd) && s.calls[id].yielded == replies
  {
    var start := [Register(id, session, limit), Send(id), SendDone(id, true)];
    var s := Run(actions).value;
    var s1 := Requests(s, id, session, limit);
    hide Run, Step, Steps;
    more := AnswersAll(s1, id, replies);
    RunSteps(actions, start);
    RunSteps(actions + start, more);
    assert [] + replies == replies;
  }

  lemma Requests(s: State, id: nat, session: string, limit: nat) returns (s': State)
    requires id !in s.calls && s.loop == Waiting
    ensures Steps(s, [Register(id, session, limit), Send(id), SendDone(id, true)]) == Some(s')
    ensures Expecting(s', id) && s'.calls[id].yielded == []
  {
    var s1 := Step(s, Register(id, session, limit)).value;
    var s2 := Step(s1, Send(id)).value;
    s' := Step(s2, SendDone(id, true)).value;
    hide Step;
    var last := [SendDone(id, true)];
    assert Steps(s2, last) == Some(s') by { assert last[1..] == [] && Steps(s', []) == Some(s'); }
    assert Steps(s1, [Send(id)] + last) == Some(s') by { assert ([Send(id)] + last)[1..] == last; }
    assert [Register(id, session, limit), Send(id), SendDone(id, true)][1..] == [Send(id)] + last;
  }
}
