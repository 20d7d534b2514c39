// The runner's close/invoke/publish protocol as a step relation over its threads.
//
// An activity is one call running on some thread: an invocation or a close. The two reader
// threads are activities of their own. Every access to shared state between two points
// where another thread may run is one step; the three locks are acquired and released by
// separate steps. Sockets, processes and plugin output are choices of the environment.
module PluginRunner {
  import opened Text

  datatype Activity = Stdout | Stderr | User(n: nat)

  /** The response types; `PluginInvokeEnd` is what ends an invocation. */
  datatype Kind = PluginResponse | PluginInvokeEnd | Failure | Info | PluginReady

  datatype Message = Message(invokeId: nat, kind: Kind, body: string)

  /** What an invocation's queue can hold: a message, the end mark, or an exception. */
  datatype Entry = Put(message: Message) | EndMark | Raise

  datatype Pc =
    | Idle
    // invoke
    | InvokeWantStop
    | InvokeHoldStop
    | InvokeWantQ(id: nat)
    | InvokeHoldQ(id: nat)
    | WantPipe(id: nat)
    | Writing(id: nat)
    | Receiving(id: nat)
    | Yielding(id: nat)
    | LeaveWantQ(id: nat)
    | LeaveHoldQ(id: nat)
    // _close
    | CloseWantStop
    | CloseWantQ
    | CloseBody
    | ClosePutting(rest: set<nat>)
    | CloseReleaseQ(first: bool)
    | CloseReleaseStop(first: bool)
    | WaitProcess
    | JoinStdout
    | JoinStderr
    | Teardown
    | SetComplete
    | WaitComplete
    // the reader threads
    | Reading
    | PublishWantQ(message: Message)
    | PublishHoldQ(message: Message)
    | Finished

  /** How a caller's loop ends: it returns normally, or raises: the exception it was handed,
      the plugin's error, or its own about a type, an id or a payload it cannot take. */
  datatype Ending = Returned | Interrupted | Reported(body: string) | InvalidType | InvalidId | Unparsable

  /** An invocation's queue. It is `live` while it is registered in `q`. Of the history,
      `taken` is what was read from the queue, `yielded` what the caller was given, `published`
      the messages that reached it, and `ending` how its loop ended, if an entry ended it. */
  datatype Mail = Mail(
    live: bool,
    queue: seq<Entry>,
    taken: seq<Entry>,
    yielded: seq<string>,
    published: seq<Message>,
    ending: Option<Ending>)

  const NEW_MAIL := Mail(true, [], [], [], [], None)

  /** What the activities share, and the history kept for the proofs: the ids handed out,
      the first closer, and how often teardown started and whether it is over. */
  datatype Shared = Shared(
    stop: bool,
    stopLock: Option<Activity>,
    qLock: Option<Activity>,
    pipeLock: Option<Activity>,
    complete: bool,
    mail: map<nat, Mail>,
    used: set<nat>,
    closer: Option<Activity>,
    teardowns: nat,
    tornDown: bool)

  datatype State = State(shared: Shared, pc: map<Activity, Pc>)

  /** The environment's choice for one step. */
  datatype Input =
    | Proceed
    | Fail
    | BeginInvoke
    | BeginClose
    | FreshId(id: nat)
    | Pick(id: nat)
    | Line(message: Message)
    | Chunk

  predicate Initial(s: State) {
    && s.shared == Shared(false, None, None, None, false, map[], {}, None, 0, false)
    && Stdout in s.pc && Stderr in s.pc
    && (forall a :: a in s.pc ==> s.pc[a] == if a.User? then Idle else Reading)
  }

  function Live(mail: map<nat, Mail>): set<nat> {
    set id | id in mail && mail[id].live
  }

  predicate IsLive(mail: map<nat, Mail>, id: nat) {
    id in mail && mail[id].live
  }

  function EntryOf(m: Message): Entry {
    if m.kind == PluginInvokeEnd then EndMark else Put(m)
  }

  /** One more entry in a queue, with the message it stands for, if any. */
  function Append(mail: map<nat, Mail>, id: nat, e: Entry, of: seq<Message>): map<nat, Mail>
    requires id in mail
  {
    mail[id := mail[id].(queue := mail[id].queue + [e], published := mail[id].published + of)]
  }

  /** One step of `invoke`. */
  function InvokeStep(sh: Shared, a: Activity, pc: Pc, input: Input): Option<(Shared, Pc)> {
    match pc
    case Idle =>
      if input == BeginInvoke then Some((sh, InvokeWantStop))
      else if input == BeginClose then Some((sh, CloseWantStop))
      else None
    case InvokeWantStop =>
      if sh.stopLock == None then Some((sh.(stopLock := Some(a)), InvokeHoldStop)) else None
    case InvokeHoldStop =>
      if sh.stop then Some((sh.(stopLock := None), Idle))
      else if input.FreshId? && input.id !in sh.used then
        Some((sh.(stopLock := None, used := sh.used + {input.id}), InvokeWantQ(input.id)))
      else None
    case InvokeWantQ(id) =>
      if sh.qLock == None then Some((sh.(qLock := Some(a)), InvokeHoldQ(id))) else None
    case InvokeHoldQ(id) =>
      if sh.stop then Some((sh.(qLock := None), Idle))
      else Some((sh.(qLock := None, mail := sh.mail[id := NEW_MAIL]), WantPipe(id)))
    case WantPipe(id) =>
      if sh.pipeLock == None then Some((sh.(pipeLock := Some(a)), Writing(id))) else None
    case Writing(id) =>
      // one `os.write`: it takes part of the request, or the rest of it, or fails
      if input == Chunk then Some((sh, pc))
      else Some((sh.(pipeLock := None), if input == Fail then LeaveWantQ(id) else Receiving(id)))
    case Receiving(id) => Receive(sh, id, input)
    case Yielding(id) => Some((sh, if input == Fail then LeaveWantQ(id) else Receiving(id)))
    case LeaveWantQ(id) =>
      if sh.qLock == None then Some((sh.(qLock := Some(a)), LeaveHoldQ(id))) else None
    case LeaveHoldQ(id) =>
      if id !in sh.mail then None
      else Some((sh.(qLock := None, mail := sh.mail[id := sh.mail[id].(live := false)]), Idle))
    case _ => None
  }

  /** How the caller's loop ends at an entry, or nothing where it yields and goes on. */
  function EndingAt(id: nat, e: Entry, parses: bool): Option<Ending> {
    match e
    case EndMark => Some(Returned)
    case Raise => Some(Interrupted)
    case Put(m) =>
      if m.invokeId != id then Some(InvalidId)
      else match m.kind
        case PluginResponse => if parses then None else Some(Unparsable)
        case Failure => Some(Reported(m.body))
        case _ => Some(InvalidType)
  }

  /** `q.get()` and what follows from it; blocked while the queue is empty. */
  function Receive(sh: Shared, id: nat, input: Input): Option<(Shared, Pc)> {
    if id !in sh.mail || sh.mail[id].queue == [] then None
    else
      var ending := EndingAt(id, sh.mail[id].queue[0], input != Fail);
      Some((sh.(mail := sh.mail[id := TakeHead(sh.mail[id], ending)]),
            if ending.None? then Yielding(id) else LeaveWantQ(id)))
  }

  function TakeHead(box: Mail, ending: Option<Ending>): Mail
    requires box.queue != [] && (ending.None? ==> box.queue[0].Put?)
  {
    var e := box.queue[0];
    box.(queue := box.queue[1..], taken := box.taken + [e], ending := ending,
         yielded := if ending.None? then box.yielded + [e.message.body] else box.yielded)
  }

  /** One step of the locked part of `_close`. */
  function LockedStep(sh: Shared, a: Activity, pc: Pc, input: Input): Option<(Shared, Pc)> {
    match pc
    case CloseWantStop =>
      if sh.stopLock == None then Some((sh.(stopLock := Some(a)), CloseWantQ)) else None
    case CloseWantQ =>
      if sh.qLock == None then Some((sh.(qLock := Some(a)), CloseBody)) else None
    case CloseBody =>
      if sh.stop then Some((sh, CloseReleaseQ(false)))
      else Some((sh.(stop := true, closer := Some(a)), ClosePutting(Live(sh.mail))))
    case ClosePutting(rest) =>
      if rest == {} then Some((sh, CloseReleaseQ(true)))
      else if input.Pick? && input.id in rest && input.id in sh.mail then
        Some((sh.(mail := Append(sh.mail, input.id, Raise, [])), ClosePutting(rest - {input.id})))
      else None
    case CloseReleaseQ(first) => Some((sh.(qLock := None), CloseReleaseStop(first)))
    case CloseReleaseStop(first) =>
      if first then Some((sh.(stopLock := None, teardowns := sh.teardowns + 1), WaitProcess))
      else Some((sh.(stopLock := None), if a.User? then WaitComplete else Finished))
    case _ => None
  }

  /** One step of the rest of it; `finished` are the threads that have ended. */
  function TeardownStep(sh: Shared, a: Activity, pc: Pc, finished: set<Activity>, input: Input): Option<(Shared, Pc)> {
    match pc
    case WaitProcess =>
      if input == Fail then Some((sh.(tornDown := true), SetComplete))
      else Some((sh, if a == Stdout then JoinStderr else JoinStdout))
    case JoinStdout => if Stdout in finished then Some((sh, JoinStderr)) else None
    case JoinStderr => if Stderr in finished then Some((sh, Teardown)) else None
    case Teardown => Some((sh.(tornDown := true), SetComplete))
    case SetComplete => Some((sh.(complete := true), if a.User? then Idle else Finished))
    case WaitComplete => if sh.complete then Some((sh, if a.User? then Idle else Finished)) else None
    case _ => None
  }

  predicate LockedPc(pc: Pc) {
    pc.CloseWantStop? || pc.CloseWantQ? || pc.CloseBody? || pc.ClosePutting? || pc.CloseReleaseQ? || pc.CloseReleaseStop?
  }

  function CloseStep(sh: Shared, a: Activity, pc: Pc, finished: set<Activity>, input: Input): Option<(Shared, Pc)> {
    if LockedPc(pc) then LockedStep(sh, a, pc, input) else TeardownStep(sh, a, pc, finished, input)
  }

  /** One step of a reader thread's own loop. */
  function ReaderStep(sh: Shared, a: Activity, pc: Pc, input: Input): Option<(Shared, Pc)> {
    match pc
    case Reading =>
      if input == Fail then Some((sh, if a == Stdout then CloseWantStop else Finished))
      else if input.Line? && a == Stdout then Some((sh, PublishWantQ(input.message)))
      else Some((sh, Reading))
    case PublishWantQ(m) =>
      if sh.qLock == None then Some((sh.(qLock := Some(a)), PublishHoldQ(m))) else None
    case PublishHoldQ(m) =>
      if IsLive(sh.mail, m.invokeId) then
        Some((sh.(qLock := None, mail := Append(sh.mail, m.invokeId, EntryOf(m), [m])), Reading))
      else Some((sh.(qLock := None), Reading))
    case _ => None
  }

  predicate InvokePc(pc: Pc) {
    pc.Idle? || pc.InvokeWantStop? || pc.InvokeHoldStop? || pc.InvokeWantQ? || pc.InvokeHoldQ?
    || pc.WantPipe? || pc.Writing? || pc.Receiving? || pc.Yielding? || pc.LeaveWantQ? || pc.LeaveHoldQ?
  }

  predicate ReaderPc(pc: Pc) {
    pc.Reading? || pc.PublishWantQ? || pc.PublishHoldQ? || pc.Finished?
  }

  /** One step of one activity, on its own. */
  function Local(sh: Shared, a: Activity, pc: Pc, finished: set<Activity>, input: Input): Option<(Shared, Pc)> {
    if InvokePc(pc) then InvokeStep(sh, a, pc, input)
    else if ReaderPc(pc) then ReaderStep(sh, a, pc, input)
    else CloseStep(sh, a, pc, finished, input)
  }

  function FinishedIn(pc: map<Activity, Pc>): set<Activity> {
    set a | a in pc && pc[a] == Finished
  }

  function Step(s: State, a: Activity, input: Input): Option<State> {
    if a !in s.pc then None
    else match Local(s.shared, a, s.pc[a], FinishedIn(s.pc), input)
      case None => None
      case Some((shared, pc)) => Some(State(shared, s.pc[a := pc]))
  }

  ghost predicate Follows(s: State, s': State) {
    exists a, input :: Step(s, a, input) == Some(s')
  }

  /** Every interleaving: each step picks an activity and an input. */
  ghost predicate Run(states: seq<State>) {
    && states != []
    && Initial(states[0])
    && (forall i :: 0 <= i < |states| - 1 ==> Follows(states[i], states[i + 1]))
  }

  // ---- The invariant.

  predicate HoldsStop(pc: Pc) {
    pc.InvokeHoldStop? || pc.CloseWantQ? || pc.CloseBody? || pc.ClosePutting? || pc.CloseReleaseQ?
    || pc.CloseReleaseStop?
  }

  predicate HoldsQ(pc: Pc) {
    pc.InvokeHoldQ? || pc.LeaveHoldQ? || pc.CloseBody? || pc.ClosePutting? || pc.CloseReleaseQ?
    || pc.PublishHoldQ?
  }

  predicate HoldsPipe(pc: Pc) {
    pc.Writing?
  }

  /** The first closer, from setting the flag to setting the event. */
  predicate FirstCloser(pc: Pc) {
    pc.ClosePutting? || (pc.CloseReleaseQ? && pc.first) || (pc.CloseReleaseStop? && pc.first) || TearingDown(pc)
  }

  predicate TearingDown(pc: Pc) {
    pc.WaitProcess? || pc.JoinStdout? || pc.JoinStderr? || pc.Teardown? || pc.SetComplete?
  }

  /** A closer that found the flag already set. */
  predicate LaterCloser(pc: Pc) {
    (pc.CloseReleaseQ? && !pc.first) || (pc.CloseReleaseStop? && !pc.first) || pc.WaitComplete?
  }

  /** In the `try` of `invoke`, not yet on the way out. */
  predicate InLoop(pc: Pc) {
    pc.WantPipe? || pc.Writing? || pc.Receiving? || pc.Yielding?
  }

  predicate Registered(pc: Pc) {
    InLoop(pc) || pc.LeaveWantQ? || pc.LeaveHoldQ?
  }

  function IdOf(pc: Pc): Option<nat> {
    if Registered(pc) || pc.InvokeWantQ? || pc.InvokeHoldQ? then Some(pc.id) else None
  }

  /** Which program counters each kind of activity can be at. */
  predicate RoleOk(a: Activity, pc: Pc) {
    match a
    case Stderr => pc.Reading? || pc.Finished?
    case Stdout => !InvokePc(pc) && !pc.WaitComplete? && !pc.JoinStdout?
    case User(_) => !ReaderPc(pc)
  }

  ghost predicate LocksOk(s: State) {
    && (forall a :: a in s.pc ==> RoleOk(a, s.pc[a]))
    && (forall a :: a in s.pc ==> (s.shared.stopLock == Some(a) <==> HoldsStop(s.pc[a])))
    && (forall a :: a in s.pc ==> (s.shared.qLock == Some(a) <==> HoldsQ(s.pc[a])))
    && (forall a :: a in s.pc ==> (s.shared.pipeLock == Some(a) <==> HoldsPipe(s.pc[a])))
    && (s.shared.stopLock.Some? ==> s.shared.stopLock.value in s.pc)
    && (s.shared.qLock.Some? ==> s.shared.qLock.value in s.pc)
    && (s.shared.pipeLock.Some? ==> s.shared.pipeLock.value in s.pc)
    && Stdout in s.pc && Stderr in s.pc
  }

  ghost predicate CloseOk(s: State) {
    var sh := s.shared;
    && (sh.stop <==> sh.closer.Some?)
    && (forall a :: a in s.pc && LaterCloser(s.pc[a]) ==> sh.stop)
    && (forall a :: a in s.pc && FirstCloser(s.pc[a]) ==> sh.closer == Some(a) && !sh.complete)
    && (sh.closer.Some? ==> sh.closer.value in s.pc && (sh.complete || FirstCloser(s.pc[sh.closer.value])))
    && (sh.complete ==> sh.closer.Some? && sh.tornDown)
    && (sh.closer.None? ==> !sh.tornDown)
    && (forall a :: a in s.pc && FirstCloser(s.pc[a]) ==> (sh.tornDown <==> s.pc[a].SetComplete?))
    && sh.teardowns == if sh.complete || (sh.closer.Some? && TearingDown(s.pc[sh.closer.value])) then 1 else 0
  }

  /** No id is handed out twice, and queues exist only for ids handed out. */
  ghost predicate IdsUnique(s: State) {
    && (forall a :: a in s.pc && IdOf(s.pc[a]).Some? ==> s.pc[a].id in s.shared.used)
    && (forall a, b :: a in s.pc && b in s.pc && IdOf(s.pc[a]).Some? && IdOf(s.pc[a]) == IdOf(s.pc[b]) ==> a == b)
    && (forall id :: id in s.shared.mail ==> id in s.shared.used)
  }

  /** An invocation has a live queue from registering to leaving, and none before. */
  ghost predicate RegisteredLive(s: State) {
    && (forall a :: a in s.pc && Registered(s.pc[a]) ==> IsLive(s.shared.mail, s.pc[a].id))
    && (forall a :: a in s.pc && IdOf(s.pc[a]).Some? && !Registered(s.pc[a]) ==> s.pc[a].id !in s.shared.mail)
  }

  ghost predicate LiveOwned(s: State) {
    forall id :: IsLive(s.shared.mail, id) ==> HasOwner(s, id)
  }

  ghost predicate IdsOk(s: State) {
    IdsUnique(s) && RegisteredLive(s) && LiveOwned(s)
  }

  ghost predicate HasOwner(s: State, id: nat) {
    exists a :: a in s.pc && Registered(s.pc[a]) && s.pc[a].id == id
  }

  /** The queue holds an exception, or the first closer is about to put one there. */
  ghost predicate WillWake(s: State, id: nat) {
    || (id in s.shared.mail && Raise in s.shared.mail[id].queue)
    || (exists a :: a in s.pc && s.pc[a].ClosePutting? && id in s.pc[a].rest)
  }

  ghost predicate WakeOk(s: State) {
    && (s.shared.stop ==> forall a :: a in s.pc && InLoop(s.pc[a]) ==> WillWake(s, s.pc[a].id))
    && (forall a :: a in s.pc && s.pc[a].ClosePutting? ==>
          forall id :: id in s.pc[a].rest ==> IsLive(s.shared.mail, id))
  }

  /** The entries other than exceptions. */
  function Kept(entries: seq<Entry>): seq<Entry> {
    if entries == [] then []
    else (if entries[0].Raise? then [] else [entries[0]]) + Kept(entries[1..])
  }

  /** The entries, exceptions aside, are the messages one by one: the end mark for one that
      ends the invocation, and any other as it is. */
  ghost predicate Carries(entries: seq<Entry>, messages: seq<Message>) {
    && |Kept(entries)| == |messages|
    && forall j :: 0 <= j < |messages| ==>
         Kept(entries)[j] == if messages[j].kind == PluginInvokeEnd then EndMark else Put(messages[j])
  }

  /** A response of the caller's own, for which it is given the body. */
  predicate Answers(id: nat, e: Entry, body: string) {
    e.Put? && e.message.invokeId == id && e.message.kind == PluginResponse && e.message.body == body
  }

  /** The entry at which a loop ends in this way. */
  predicate EndsLoop(id: nat, e: Entry, ending: Ending) {
    match ending
    case Returned => e == EndMark
    case Interrupted => e == Raise
    case InvalidId => e.Put? && e.message.invokeId != id
    case Reported(body) => e.Put? && e.message.invokeId == id && e.message.kind == Failure && e.message.body == body
    case InvalidType => e.Put? && e.message.invokeId == id && e.message.kind !in {PluginResponse, Failure}
    case Unparsable => e.Put? && e.message.invokeId == id && e.message.kind == PluginResponse
  }

  /** The queue's log carries the messages published, and what the caller took of it are
      responses it was given the bodies of, and then the entry that ended its loop. */
  ghost predicate MailOk(id: nat, box: Mail) {
    var n := |box.yielded|;
    && (forall j :: 0 <= j < |box.published| ==> box.published[j].invokeId == id)
    && Carries(box.taken + box.queue, box.published)
    && |box.taken| == n + (if box.ending.Some? then 1 else 0)
    && (forall j :: 0 <= j < n ==> Answers(id, box.taken[j], box.yielded[j]))
    && (box.ending.Some? ==> EndsLoop(id, box.taken[n], box.ending.value))
  }

  ghost predicate HistoryOk(s: State) {
    && (forall id :: id in s.shared.mail ==> MailOk(id, s.shared.mail[id]))
    && (forall a :: a in s.pc && InLoop(s.pc[a]) && s.pc[a].id in s.shared.mail ==>
          s.shared.mail[s.pc[a].id].ending.None?)
  }

  ghost predicate Inv(s: State) {
    LocksOk(s) && CloseOk(s) && IdsOk(s) && WakeOk(s) && HistoryOk(s)
  }

  lemma InitialInv(s: State)
    requires Initial(s)
    ensures Inv(s)
  {
    InitialLocks(s);
    InitialClose(s);
    InitialMail(s);
    hide LocksOk, CloseOk, IdsOk, WakeOk, HistoryOk;
  }

  lemma InitialLocks(s: State)
    requires Initial(s)
    ensures LocksOk(s)
  {
  }

  lemma InitialClose(s: State)
    requires Initial(s)
    ensures CloseOk(s)
  {
  }

  lemma InitialMail(s: State)
    requires Initial(s)
    ensures IdsOk(s) && WakeOk(s) && HistoryOk(s)
  {
  }

  // ---- What one activity's step may do, without looking at the others.

  ghost predicate LockEffect(sh: Shared, a: Activity, pc: Pc, sh': Shared, pc': Pc) {
    && sh'.stopLock == (if HoldsStop(pc') then Some(a) else if HoldsStop(pc) then None else sh.stopLock)
    && sh'.qLock == (if HoldsQ(pc') then Some(a) else if HoldsQ(pc) then None else sh.qLock)
    && sh'.pipeLock == (if HoldsPipe(pc') then Some(a) else if HoldsPipe(pc) then None else sh.pipeLock)
    && (HoldsStop(pc') && !HoldsStop(pc) ==> sh.stopLock == None)
    && (HoldsPipe(pc') && !HoldsPipe(pc) ==> sh.pipeLock == None)
    && (HoldsQ(pc') && !HoldsQ(pc) ==> sh.qLock == None)
    && (RoleOk(a, pc) ==> RoleOk(a, pc'))
  }

  predicate OwnsWhatItHolds(sh: Shared, a: Activity, pc: Pc) {
    && (sh.stopLock == Some(a) <==> HoldsStop(pc))
    && (sh.qLock == Some(a) <==> HoldsQ(pc))
    && (sh.pipeLock == Some(a) <==> HoldsPipe(pc))
  }

  lemma LocalLockEffect(sh: Shared, a: Activity, pc: Pc, finished: set<Activity>, input: Input)
    requires Local(sh, a, pc, finished, input).Some?
    requires RoleOk(a, pc)
    requires OwnsWhatItHolds(sh, a, pc)
    ensures var (sh', pc') := Local(sh, a, pc, finished, input).value; LockEffect(sh, a, pc, sh', pc')
  {
    hide Live, Append;
    if InvokePc(pc) {
      hide CloseStep, ReaderStep, LockEffect;
      InvokeLockEffect(sh, a, pc, input);
    } else if !ReaderPc(pc) {
      hide InvokeStep, ReaderStep, LockEffect;
      CloseLockEffect(sh, a, pc, finished, input);
    }
  }

  lemma InvokeLockEffect(sh: Shared, a: Activity, pc: Pc, input: Input)
    requires InvokePc(pc) && InvokeStep(sh, a, pc, input).Some?
    requires RoleOk(a, pc)
    requires OwnsWhatItHolds(sh, a, pc)
    ensures var (sh', pc') := InvokeStep(sh, a, pc, input).value; LockEffect(sh, a, pc, sh', pc')
  {
    hide Receive;
    if pc.Receiving? {
      ReceiveKeeps(sh, pc.id, input);
      hide InvokeStep;
      assert InvokeStep(sh, a, pc, input) == Receive(sh, pc.id, input) by { InvokeReceives(sh, a, pc, input); }
    }
  }

  lemma InvokeReceives(sh: Shared, a: Activity, pc: Pc, input: Input)
    requires pc.Receiving?
    ensures InvokeStep(sh, a, pc, input) == Receive(sh, pc.id, input)
  {
  }

  lemma ReceiveKeeps(sh: Shared, id: nat, input: Input)
    requires Receive(sh, id, input).Some?
    ensures var (sh', pc') := Receive(sh, id, input).value;
      sh' == sh.(mail := sh'.mail) && (pc' == Yielding(id) || pc' == LeaveWantQ(id))
  {
  }

  lemma CloseLockEffect(sh: Shared, a: Activity, pc: Pc, finished: set<Activity>, input: Input)
    requires CloseStep(sh, a, pc, finished, input).Some?
    requires RoleOk(a, pc) && OwnsWhatItHolds(sh, a, pc)
    ensures var (sh', pc') := CloseStep(sh, a, pc, finished, input).value; LockEffect(sh, a, pc, sh', pc')
  {
    hide LockedStep, TeardownStep, LockEffect;
    if LockedPc(pc) {
      LockedLockEffect(sh, a, pc, input);
    } else {
      TeardownLockEffect(sh, a, pc, finished, input);
    }
  }

  lemma LockedLockEffect(sh: Shared, a: Activity, pc: Pc, input: Input)
    requires LockedPc(pc) && LockedStep(sh, a, pc, input).Some?
    requires RoleOk(a, pc) && OwnsWhatItHolds(sh, a, pc)
    ensures var (sh', pc') := LockedStep(sh, a, pc, input).value; LockEffect(sh, a, pc, sh', pc')
  {
    hide Live, Append;
  }

  lemma TeardownLockEffect(sh: Shared, a: Activity, pc: Pc, finished: set<Activity>, input: Input)
    requires TeardownStep(sh, a, pc, finished, input).Some?
    requires RoleOk(a, pc) && OwnsWhatItHolds(sh, a, pc)
    ensures var (sh', pc') := TeardownStep(sh, a, pc, finished, input).value; LockEffect(sh, a, pc, sh', pc')
  {
  }

  lemma LocksKept(s: State, a: Activity, input: Input)
    requires LocksOk(s) && Step(s, a, input).Some?
    ensures LocksOk(Step(s, a, input).value)
  {
    hide Local, HoldsStop, HoldsQ, HoldsPipe, RoleOk;
    LocalLockEffect(s.shared, a, s.pc[a], FinishedIn(s.pc), input);
  }

  ghost predicate CloseEffect(sh: Shared, a: Activity, pc: Pc, sh': Shared, pc': Pc) {
    && (sh'.stop <==> sh.stop || pc.CloseBody?)
    && sh'.closer == (if pc.CloseBody? && !sh.stop then Some(a) else sh.closer)
    && (FirstCloser(pc') <==> (pc.CloseBody? && !sh.stop) || (FirstCloser(pc) && !pc.SetComplete?))
    && (TearingDown(pc') <==> (pc.CloseReleaseStop? && pc.first) || (TearingDown(pc) && !pc.SetComplete?))
    && sh'.teardowns == sh.teardowns + (if pc.CloseReleaseStop? && pc.first then 1 else 0)
    && (sh'.complete <==> sh.complete || pc.SetComplete?)
    && (sh'.tornDown <==> sh.tornDown || pc'.SetComplete?)
    && (pc'.SetComplete? ==> TearingDown(pc) && !pc.SetComplete?)
    && (pc.CloseBody? ==> !FirstCloser(pc))
    && (LaterCloser(pc') ==> LaterCloser(pc) || sh.stop)
  }

  lemma LocalCloseEffect(sh: Shared, a: Activity, pc: Pc, finished: set<Activity>, input: Input)
    requires Local(sh, a, pc, finished, input).Some?
    ensures var (sh', pc') := Local(sh, a, pc, finished, input).value; CloseEffect(sh, a, pc, sh', pc')
  {
    hide InvokeStep, ReaderStep, LockedStep, TeardownStep, CloseEffect;
    if InvokePc(pc) {
      InvokeCloseEffect(sh, a, pc, input);
    } else if ReaderPc(pc) {
      ReaderCloseEffect(sh, a, pc, input);
    } else if LockedPc(pc) {
      LockedCloseEffect(sh, a, pc, input);
    } else {
      TeardownCloseEffect(sh, a, pc, finished, input);
    }
  }

  lemma InvokeCloseEffect(sh: Shared, a: Activity, pc: Pc, input: Input)
    requires InvokePc(pc) && InvokeStep(sh, a, pc, input).Some?
    ensures var (sh', pc') := InvokeStep(sh, a, pc, input).value; CloseEffect(sh, a, pc, sh', pc')
  {
    if pc.Receiving? {
      ReceiveKeeps(sh, pc.id, input);
    }
    hide Receive;
  }

  lemma ReaderCloseEffect(sh: Shared, a: Activity, pc: Pc, input: Input)
    requires ReaderPc(pc) && ReaderStep(sh, a, pc, input).Some?
    ensures var (sh', pc') := ReaderStep(sh, a, pc, input).value; CloseEffect(sh, a, pc, sh', pc')
  {
    hide Append;
  }

  lemma LockedCloseEffect(sh: Shared, a: Activity, pc: Pc, input: Input)
    requires LockedPc(pc) && LockedStep(sh, a, pc, input).Some?
    ensures var (sh', pc') := LockedStep(sh, a, pc, input).value; CloseEffect(sh, a, pc, sh', pc')
  {
    hide Live, Append;
  }

  lemma TeardownCloseEffect(sh: Shared, a: Activity, pc: Pc, finished: set<Activity>, input: Input)
    requires TeardownStep(sh, a, pc, finished, input).Some?
    ensures var (sh', pc') := TeardownStep(sh, a, pc, finished, input).value; CloseEffect(sh, a, pc, sh', pc')
  {
  }

  lemma FirstIncludesTearingDown(pc: Pc)
    ensures TearingDown(pc) ==> FirstCloser(pc)
    ensures pc.SetComplete? ==> TearingDown(pc)
    ensures pc.CloseReleaseStop? && pc.first ==> FirstCloser(pc) && !TearingDown(pc)
  {
  }

  lemma CloseKept(s: State, a: Activity, input: Input)
    requires LocksOk(s) && CloseOk(s) && Step(s, a, input).Some?
    ensures CloseOk(Step(s, a, input).value)
  {
    hide Local, FirstCloser, TearingDown, LaterCloser, HoldsStop, HoldsQ, RoleOk;
    LocalCloseEffect(s.shared, a, s.pc[a], FinishedIn(s.pc), input);
    FirstIncludesTearingDown(s.pc[a]);
    FirstIncludesTearingDown(Step(s, a, input).value.pc[a]);
  }

  /** The ways a step can change the queues. */
  datatype Change =
    | Same
    | Opened(id: nat)
    | Read(id: nat, ending: Option<Ending>)
    | Closed(id: nat)
    | Appended(id: nat, entry: Entry, of: seq<Message>)

  function Apply(mail: map<nat, Mail>, ch: Change): map<nat, Mail>
    requires (ch.Read? || ch.Closed? || ch.Appended?) ==> ch.id in mail
    requires ch.Read? ==> mail[ch.id].queue != [] && (ch.ending.None? ==> mail[ch.id].queue[0].Put?)
  {
    match ch
    case Same => mail
    case Opened(id) => mail[id := NEW_MAIL]
    case Read(id, ending) => mail[id := TakeHead(mail[id], ending)]
    case Closed(id) => mail[id := mail[id].(live := false)]
    case Appended(id, e, of) => Append(mail, id, e, of)
  }

  /** An entry read: either it ends the loop, or it is answered. */
  predicate ReadsAs(id: nat, e: Entry, ending: Option<Ending>) {
    match ending
    case None => e.Put? && Answers(id, e, e.message.body)
    case Some(ending) => EndsLoop(id, e, ending)
  }

  ghost predicate MailEffect(sh: Shared, pc: Pc, sh': Shared, pc': Pc, ch: Change) {
    && ((ch.Read? || ch.Closed? || ch.Appended?) ==> ch.id in sh.mail)
    && (ch.Read? ==>
          && pc == Receiving(ch.id) && sh.mail[ch.id].queue != []
          && pc' == (if ch.ending.None? then Yielding(ch.id) else LeaveWantQ(ch.id))
          && ReadsAs(ch.id, sh.mail[ch.id].queue[0], ch.ending))
    && sh'.mail == Apply(sh.mail, ch)
    && (ch.Opened? ==> pc == InvokeHoldQ(ch.id) && pc' == WantPipe(ch.id) && !sh.stop)
    && (ch.Closed? ==> pc == LeaveHoldQ(ch.id) && IdOf(pc') == None)
    && (ch.Appended? ==>
          || (pc.ClosePutting? && ch.id in pc.rest && pc' == ClosePutting(pc.rest - {ch.id}) && ch.entry == Raise
              && ch.of == [])
          || (&& pc.PublishHoldQ? && ch.id == pc.message.invokeId && ch.of == [pc.message] && pc' == Reading
              && ch.entry == if pc.message.kind == PluginInvokeEnd then EndMark else Put(pc.message)))
    && (pc'.ClosePutting? ==>
          || (pc.CloseBody? && !sh.stop && pc'.rest == Live(sh.mail) && ch == Same)
          || (pc.ClosePutting? && ch.Appended?))
    && (pc.ClosePutting? ==> pc'.ClosePutting? || pc.rest == {})
    && (sh'.stop && !sh.stop ==> pc'.ClosePutting? && pc'.rest == Live(sh.mail))
    && (pc.Receiving? && InLoop(pc') ==> ch.Read? && ch.ending.None?)
  }

  ghost predicate IdEffect(sh: Shared, pc: Pc, sh': Shared, pc': Pc, ch: Change) {
    && sh.used <= sh'.used
    && (IdOf(pc').Some? ==>
          || IdOf(pc) == IdOf(pc')
          || (pc'.InvokeWantQ? && pc'.id !in sh.used && pc'.id in sh'.used))
    && (Registered(pc') <==> ch.Opened? || (Registered(pc) && !ch.Closed?))
    && (InLoop(pc') ==> InLoop(pc) || ch.Opened?)
    && (Registered(pc) && Registered(pc') ==> pc.id == pc'.id)
  }

  lemma LocalMailEffect(sh: Shared, a: Activity, pc: Pc, finished: set<Activity>, input: Input) returns (ch: Change)
    requires Local(sh, a, pc, finished, input).Some?
    ensures var (sh', pc') := Local(sh, a, pc, finished, input).value;
      MailEffect(sh, pc, sh', pc', ch) && IdEffect(sh, pc, sh', pc', ch)
  {
    hide Live, MailEffect, IdEffect;
    if InvokePc(pc) {
      hide CloseStep, ReaderStep;
      ch := InvokeMailEffect(sh, a, pc, input);
    } else if ReaderPc(pc) {
      hide CloseStep, InvokeStep;
      ch := ReaderMailEffect(sh, a, pc, input);
    } else {
      hide InvokeStep, ReaderStep;
      ch := CloseMailEffect(sh, a, pc, finished, input);
    }
  }

  lemma InvokeMailEffect(sh: Shared, a: Activity, pc: Pc, input: Input) returns (ch: Change)
    requires InvokePc(pc) && InvokeStep(sh, a, pc, input).Some?
    ensures var (sh', pc') := InvokeStep(sh, a, pc, input).value;
      MailEffect(sh, pc, sh', pc', ch) && IdEffect(sh, pc, sh', pc', ch)
  {
    hide Live;
    ch := Same;
    if pc.Receiving? {
      ch := ReceiveMailEffect(sh, pc.id, input);
    } else {
      hide Receive, TakeHead, Append;
      if pc.InvokeHoldQ? && !sh.stop {
        ch := Opened(pc.id);
      } else if pc.LeaveHoldQ? {
        ch := Closed(pc.id);
      }
    }
  }

  lemma ReceiveMailEffect(sh: Shared, id: nat, input: Input) returns (ch: Change)
    requires Receive(sh, id, input).Some?
    ensures var (sh', pc') := Receive(sh, id, input).value;
      MailEffect(sh, Receiving(id), sh', pc', ch) && IdEffect(sh, Receiving(id), sh', pc', ch)
  {
    ch := Read(id, EndingAt(id, sh.mail[id].queue[0], input != Fail));
  }

  lemma ReaderMailEffect(sh: Shared, a: Activity, pc: Pc, input: Input) returns (ch: Change)
    requires ReaderPc(pc) && ReaderStep(sh, a, pc, input).Some?
    ensures var (sh', pc') := ReaderStep(sh, a, pc, input).value;
      MailEffect(sh, pc, sh', pc', ch) && IdEffect(sh, pc, sh', pc', ch)
  {
    hide Live;
    ch := if pc.PublishHoldQ? && IsLive(sh.mail, pc.message.invokeId)
      then Appended(pc.message.invokeId, EntryOf(pc.message), [pc.message]) else Same;
  }

  lemma CloseMailEffect(sh: Shared, a: Activity, pc: Pc, finished: set<Activity>, input: Input) returns (ch: Change)
    requires CloseStep(sh, a, pc, finished, input).Some?
    ensures var (sh', pc') := CloseStep(sh, a, pc, finished, input).value;
      MailEffect(sh, pc, sh', pc', ch) && IdEffect(sh, pc, sh', pc', ch)
  {
    hide LockedStep, TeardownStep, MailEffect, IdEffect;
    if LockedPc(pc) {
      ch := LockedMailEffect(sh, a, pc, input);
    } else {
      TeardownMailEffect(sh, a, pc, finished, input);
      ch := Same;
    }
  }

  lemma LockedMailEffect(sh: Shared, a: Activity, pc: Pc, input: Input) returns (ch: Change)
    requires LockedPc(pc) && LockedStep(sh, a, pc, input).Some?
    ensures var (sh', pc') := LockedStep(sh, a, pc, input).value;
      MailEffect(sh, pc, sh', pc', ch) && IdEffect(sh, pc, sh', pc', ch)
  {
    hide Live;
    ch := if pc.ClosePutting? && pc.rest != {} then Appended(input.id, Raise, []) else Same;
  }

  lemma TeardownMailEffect(sh: Shared, a: Activity, pc: Pc, finished: set<Activity>, input: Input)
    requires !LockedPc(pc) && TeardownStep(sh, a, pc, finished, input).Some?
    ensures var (sh', pc') := TeardownStep(sh, a, pc, finished, input).value;
      MailEffect(sh, pc, sh', pc', Same) && IdEffect(sh, pc, sh', pc', Same)
  {
  }

  /** The queues a step leaves alone. */
  lemma ApplyElsewhere(mail: map<nat, Mail>, ch: Change, id: nat)
    requires (ch.Read? || ch.Closed? || ch.Appended?) ==> ch.id in mail
    requires ch.Read? ==> mail[ch.id].queue != [] && (ch.ending.None? ==> mail[ch.id].queue[0].Put?)
    ensures ch.Same? || id != ch.id ==> (id in Apply(mail, ch) <==> id in mail)
    ensures (ch.Same? || id != ch.id) && id in mail ==> Apply(mail, ch)[id] == mail[id]
    ensures id in mail ==> id in Apply(mail, ch)
    ensures id in Apply(mail, ch) && !ch.Opened? ==> id in mail
    ensures IsLive(Apply(mail, ch), id) <==>
      (if ch.Opened? && ch.id == id then true else if ch.Closed? && ch.id == id then false else IsLive(mail, id))
  {
  }

  lemma IdsUniqueKept(s: State, a: Activity, sh': Shared, pc': Pc, ch: Change)
    requires a in s.pc && IdsUnique(s)
    requires MailEffect(s.shared, s.pc[a], sh', pc', ch) && IdEffect(s.shared, s.pc[a], sh', pc', ch)
    ensures IdsUnique(State(sh', s.pc[a := pc']))
  {
    hide Apply, Registered;
    var s' := State(sh', s.pc[a := pc']);
    forall id | id in s'.shared.mail
      ensures id in s'.shared.used
    {
      ApplyElsewhere(s.shared.mail, ch, id);
    }
  }

  lemma RegisteredLiveKept(s: State, a: Activity, sh': Shared, pc': Pc, ch: Change)
    requires a in s.pc && IdsUnique(s) && RegisteredLive(s)
    requires MailEffect(s.shared, s.pc[a], sh', pc', ch) && IdEffect(s.shared, s.pc[a], sh', pc', ch)
    ensures RegisteredLive(State(sh', s.pc[a := pc']))
  {
    hide Apply, IsLive;
    var s' := State(sh', s.pc[a := pc']);
    forall b | b in s'.pc && IdOf(s'.pc[b]).Some?
      ensures Registered(s'.pc[b]) ==> IsLive(s'.shared.mail, s'.pc[b].id)
      ensures !Registered(s'.pc[b]) ==> s'.pc[b].id !in s'.shared.mail
    {
      ApplyElsewhere(s.shared.mail, ch, s'.pc[b].id);
    }
  }

  lemma LiveOwnedKept(s: State, a: Activity, sh': Shared, pc': Pc, ch: Change)
    requires a in s.pc && IdsUnique(s) && LiveOwned(s)
    requires MailEffect(s.shared, s.pc[a], sh', pc', ch) && IdEffect(s.shared, s.pc[a], sh', pc', ch)
    ensures LiveOwned(State(sh', s.pc[a := pc']))
  {
    hide Apply, IsLive;
    var s' := State(sh', s.pc[a := pc']);
    forall id | IsLive(s'.shared.mail, id)
      ensures HasOwner(s', id)
    {
      ApplyElsewhere(s.shared.mail, ch, id);
      if ch == Opened(id) {
        assert s'.pc[a].id == id && Registered(s'.pc[a]);
      } else {
        assert HasOwner(s, id);
        var b :| b in s.pc && Registered(s.pc[b]) && s.pc[b].id == id;
        assert b in s'.pc && Registered(s'.pc[b]) && s'.pc[b].id == id;
      }
    }
  }

  // ---- Nobody is left asleep.

  lemma RestIsLive(s: State, a: Activity, sh': Shared, pc': Pc, ch: Change)
    requires a in s.pc && LocksOk(s) && WakeOk(s)
    requires MailEffect(s.shared, s.pc[a], sh', pc', ch)
    ensures var s' := State(sh', s.pc[a := pc']);
      forall b :: b in s'.pc && s'.pc[b].ClosePutting? ==>
        forall id :: id in s'.pc[b].rest ==> IsLive(s'.shared.mail, id)
  {
    hide Apply, IsLive, RoleOk, HoldsStop;
    var s' := State(sh', s.pc[a := pc']);
    forall b, id | b in s'.pc && s'.pc[b].ClosePutting? && id in s'.pc[b].rest
      ensures IsLive(s'.shared.mail, id)
    {
      ApplyElsewhere(s.shared.mail, ch, id);
      LiveIsLive(s.shared.mail, id);
      if b == a {
        assert s.pc[a].ClosePutting? ==> id in s.pc[a].rest;
      } else {
        assert s.shared.qLock == Some(b);
      }
    }
  }

  lemma LiveIsLive(mail: map<nat, Mail>, id: nat)
    ensures id in Live(mail) <==> IsLive(mail, id)
  {
  }

  lemma WakeKept(s: State, a: Activity, sh': Shared, pc': Pc, ch: Change, b: Activity)
    requires a in s.pc && b in s.pc && IdsUnique(s) && RegisteredLive(s) && WakeOk(s)
    requires MailEffect(s.shared, s.pc[a], sh', pc', ch) && IdEffect(s.shared, s.pc[a], sh', pc', ch)
    requires sh'.stop
    ensures var s' := State(sh', s.pc[a := pc']); InLoop(s'.pc[b]) ==> WillWake(s', s'.pc[b].id)
  {
    hide Apply, IsLive, Live;
    var s' := State(sh', s.pc[a := pc']);
    if InLoop(s'.pc[b]) {
      var id := s'.pc[b].id;
      if !s.shared.stop {
        assert IsLive(s.shared.mail, id);
        LiveIsLive(s.shared.mail, id);
        assert s'.pc[a].ClosePutting? && id in s'.pc[a].rest;
      } else {
        assert WillWake(s, id);
        ApplyElsewhere(s.shared.mail, ch, id);
        if id in s.shared.mail && Raise in s.shared.mail[id].queue {
          RaiseKept(s, a, sh', pc', ch, b);
        } else {
          var c :| c in s.pc && s.pc[c].ClosePutting? && id in s.pc[c].rest;
          if c == a {
            if ch.Appended? && ch.id == id {
              AppendedRaise(s.shared.mail, id);
            } else {
              assert s'.pc[a].ClosePutting? && id in s'.pc[a].rest;
            }
          } else {
            assert s'.pc[c].ClosePutting? && id in s'.pc[c].rest;
          }
        }
      }
    }
  }

  lemma AppendedRaise(mail: map<nat, Mail>, id: nat)
    requires id in mail
    ensures var mail' := Apply(mail, Appended(id, Raise, [])); id in mail' && Raise in mail'[id].queue
  {
    var queue := mail[id].queue + [Raise];
    assert queue[|queue| - 1] == Raise;
  }

  lemma RaiseKept(s: State, a: Activity, sh': Shared, pc': Pc, ch: Change, b: Activity)
    requires a in s.pc && b in s.pc && IdsUnique(s) && RegisteredLive(s)
    requires MailEffect(s.shared, s.pc[a], sh', pc', ch) && IdEffect(s.shared, s.pc[a], sh', pc', ch)
    requires s.shared.stop && InLoop(s.pc[a := pc'][b])
    requires var id := s.pc[a := pc'][b].id; id in s.shared.mail && Raise in s.shared.mail[id].queue
    ensures var id := s.pc[a := pc'][b].id; id in sh'.mail && Raise in sh'.mail[id].queue
  {
    var id := s.pc[a := pc'][b].id;
    ApplyElsewhere(s.shared.mail, ch, id);
    if !ch.Same? && ch.id == id {
      assert !ch.Opened?;
      var queue := s.shared.mail[id].queue;
      var i :| 0 <= i < |queue| && queue[i] == Raise;
      match ch
      case Read(_, _) =>
        assert a == b;
        assert queue[1..][i - 1] == Raise;
      case Closed(_) =>
      case Appended(_, e, _) =>
        assert (queue + [e])[i] == Raise;
    }
  }

  // ---- Nobody sees anyone else's messages.

  lemma HistoryKept(s: State, a: Activity, sh': Shared, pc': Pc, ch: Change)
    requires a in s.pc && IdsUnique(s) && RegisteredLive(s) && HistoryOk(s)
    requires MailEffect(s.shared, s.pc[a], sh', pc', ch) && IdEffect(s.shared, s.pc[a], sh', pc', ch)
    ensures HistoryOk(State(sh', s.pc[a := pc']))
  {
    hide Apply, IsLive, MailOk;
    var s' := State(sh', s.pc[a := pc']);
    forall id | id in s'.shared.mail
      ensures MailOk(id, s'.shared.mail[id])
    {
      ApplyElsewhere(s.shared.mail, ch, id);
      if !ch.Same? && ch.id == id {
        BoxKept(s.shared, s.pc[a], sh', pc', ch);
      }
    }
    forall b | b in s'.pc && InLoop(s'.pc[b]) && s'.pc[b].id in s'.shared.mail
      ensures s'.shared.mail[s'.pc[b].id].ending.None?
    {
      var id := s'.pc[b].id;
      ApplyElsewhere(s.shared.mail, ch, id);
      if !ch.Same? && ch.id == id {
        ApplyHere(s.shared.mail, ch);
        assert ch.Read? || ch.Closed? ==> a == b;
      }
    }
  }

  lemma {:induction false} KeptAppend(a: seq<Entry>, b: seq<Entry>)
    ensures Kept(a + b) == Kept(a) + Kept(b)
  {
    if a == [] {
      assert a + b == b;
    } else {
      assert (a + b)[1..] == a[1..] + b;
      KeptAppend(a[1..], b);
    }
  }

  lemma CarriesMore(entries: seq<Entry>, messages: seq<Message>, e: Entry, of: seq<Message>)
    requires Carries(entries, messages)
    requires (e == Raise && of == [])
      || exists m :: of == [m] && e == if m.kind == PluginInvokeEnd then EndMark else Put(m)
    ensures Carries(entries + [e], messages + of)
  {
    KeptAppend(entries, [e]);
    assert Kept([e]) == if e.Raise? then [] else [e];
    hide Kept;
  }

  lemma ReadKeepsBox(id: nat, box: Mail, ending: Option<Ending>)
    requires MailOk(id, box) && box.queue != [] && box.ending.None? && ReadsAs(id, box.queue[0], ending)
    ensures MailOk(id, TakeHead(box, ending))
  {
    assert box.taken + [box.queue[0]] + box.queue[1..] == box.taken + box.queue;
    hide Carries;
  }

  lemma AppendKeepsBox(id: nat, box: Mail, e: Entry, of: seq<Message>)
    requires MailOk(id, box) && forall m :: m in of ==> m.invokeId == id
    requires (e == Raise && of == [])
      || exists m :: of == [m] && e == if m.kind == PluginInvokeEnd then EndMark else Put(m)
    ensures MailOk(id, box.(queue := box.queue + [e], published := box.published + of))
  {
    assert box.taken + (box.queue + [e]) == box.taken + box.queue + [e];
    CarriesMore(box.taken + box.queue, box.published, e, of);
    hide Carries, EndsLoop, Answers;
  }

  lemma NewBoxOk(id: nat)
    ensures MailOk(id, NEW_MAIL)
  {
  }

  lemma BoxKept(sh: Shared, pc: Pc, sh': Shared, pc': Pc, ch: Change)
    requires MailEffect(sh, pc, sh', pc', ch) && !ch.Same?
    requires ch.id in sh.mail ==> MailOk(ch.id, sh.mail[ch.id])
    requires ch.Read? ==> sh.mail[ch.id].ending.None?
    ensures ch.id in sh'.mail && MailOk(ch.id, sh'.mail[ch.id])
  {
    hide Live, TakeHead, Carries, IdOf, ReadsAs, EndsLoop, Answers;
    match ch
    case Opened(id) => NewBoxOk(id);
    case Read(id, ending) => ReadKeepsBox(id, sh.mail[id], ending);
    case Closed(id) =>
    case Appended(id, e, of) => AppendKeepsBox(id, sh.mail[id], e, of);
  }

  /** The box a change touches, on its own. */
  lemma ApplyHere(mail: map<nat, Mail>, ch: Change)
    requires !ch.Same?
    requires (ch.Read? || ch.Closed? || ch.Appended?) ==> ch.id in mail
    requires ch.Read? ==> mail[ch.id].queue != [] && (ch.ending.None? ==> mail[ch.id].queue[0].Put?)
    ensures var mail' := Apply(mail, ch);
      && ch.id in mail'
      && (ch.Opened? ==> mail'[ch.id] == NEW_MAIL)
      && (ch.Read? ==> mail'[ch.id].ending == ch.ending)
      && (!ch.Opened? && !ch.Read? ==> mail'[ch.id].ending == mail[ch.id].ending)
      && (!ch.Opened? ==> mail'[ch.id].published == mail[ch.id].published + if ch.Appended? then ch.of else [])
  {
  }

  // ---- Every step keeps the invariant, so every run does.

  lemma StepKeepsInv(s: State, a: Activity, input: Input)
    requires Inv(s) && Step(s, a, input).Some?
    ensures Inv(Step(s, a, input).value)
  {
    LocksKept(s, a, input);
    CloseKept(s, a, input);
    hide LocksOk, CloseOk, HistoryOk, RegisteredLive, LiveOwned, MailEffect, IdEffect, Local;
    var ch := LocalMailEffect(s.shared, a, s.pc[a], FinishedIn(s.pc), input);
    var (sh', pc') := Local(s.shared, a, s.pc[a], FinishedIn(s.pc), input).value;
    var s' := State(sh', s.pc[a := pc']);
    IdsUniqueKept(s, a, sh', pc', ch);
    RegisteredLiveKept(s, a, sh', pc', ch);
    LiveOwnedKept(s, a, sh', pc', ch);
    RestIsLive(s, a, sh', pc', ch);
    forall b | sh'.stop && b in s'.pc && InLoop(s'.pc[b])
      ensures WillWake(s', s'.pc[b].id)
    {
      WakeKept(s, a, sh', pc', ch, b);
    }
    HistoryKept(s, a, sh', pc', ch);
  }

  lemma {:induction false} RunKeepsInv(states: seq<State>, i: nat)
    requires Run(states) && i < |states|
    ensures Inv(states[i])
  {
    hide Step, Inv, Initial;
    if i == 0 {
      InitialInv(states[0]);
    } else {
      RunKeepsInv(states, i - 1);
      assert Follows(states[i - 1], states[i - 1 + 1]);
      var a, input :| Step(states[i - 1], a, input) == Some(states[i]);
      StepKeepsInv(states[i - 1], a, input);
    }
  }

  // ---- Main results, for every state of every run.

  /** Once the runner is stopping and the first closer has been round the queues, every
      invocation still registered has an exception to read or its caller has left the loop;
      so no caller blocks in `q.get()`. */
  lemma NoCallerIsLeftAsleep(states: seq<State>, i: nat, a: Activity)
    requires Run(states) && i < |states|
    requires states[i].shared.stop && !exists c :: c in states[i].pc && states[i].pc[c].ClosePutting?
    requires a in states[i].pc && Registered(states[i].pc[a])
    ensures var s := states[i];
      var pc := s.pc[a];
      && IsLive(s.shared.mail, pc.id)
      && (Raise in s.shared.mail[pc.id].queue || pc.LeaveWantQ? || pc.LeaveHoldQ?)
      && (pc.Receiving? ==> Step(s, a, Proceed).Some?)
  {
    RunKeepsInv(states, i);
    hide Run, LocksOk, CloseOk, HistoryOk, LiveOwned, IdsUnique, Step;
    var s := states[i];
    if InLoop(s.pc[a]) {
      assert WillWake(s, s.pc[a].id);
      if s.pc[a].Receiving? {
        CanReceive(s, a);
      }
    }
  }

  lemma CanReceive(s: State, a: Activity)
    requires a in s.pc && s.pc[a].Receiving? && s.pc[a].id in s.shared.mail
    requires s.shared.mail[s.pc[a].id].queue != []
    ensures Step(s, a, Proceed).Some?
  {
    hide CloseStep, ReaderStep;
  }

  /** Conversely a registered queue always has such a caller. */
  lemma EveryQueueHasACaller(states: seq<State>, i: nat, id: nat)
    requires Run(states) && i < |states| && IsLive(states[i].shared.mail, id)
    ensures exists a ::
      && a in states[i].pc && Registered(states[i].pc[a]) && states[i].pc[a].id == id
      && (forall b :: b in states[i].pc && IdOf(states[i].pc[b]) == Some(id) ==> b == a)
  {
    RunKeepsInv(states, i);
    var s := states[i];
    assert HasOwner(s, id);
    var a :| a in s.pc && Registered(s.pc[a]) && s.pc[a].id == id;
    assert forall b :: b in s.pc && IdOf(s.pc[b]) == Some(id) ==> b == a;
  }

  /** How many entries a caller reads before it meets an exception. */
  function RaiseAt(queue: seq<Entry>): nat
    requires Raise in queue
  {
    if queue[0] == Raise then 0 else 1 + RaiseAt(queue[1..])
  }

  lemma {:induction false} RaiseAtAppend(queue: seq<Entry>, e: Entry)
    requires Raise in queue
    ensures Raise in queue + [e] && RaiseAt(queue + [e]) == RaiseAt(queue)
  {
    if queue[0] != Raise {
      assert (queue + [e])[1..] == queue[1..] + [e];
      RaiseAtAppend(queue[1..], e);
    }
    var i :| 0 <= i < |queue| && queue[i] == Raise;
    assert (queue + [e])[i] == Raise;
  }

  /** The exception only ever comes nearer: no step of any activity puts anything in front
      of it, and every `get` of the caller brings it one entry closer. */
  lemma ExceptionComesNearer(s: State, a: Activity, input: Input, b: Activity)
    requires Inv(s) && Step(s, a, input).Some?
    requires b in s.pc && InLoop(s.pc[b])
    requires var id := s.pc[b].id; id in s.shared.mail && Raise in s.shared.mail[id].queue
    ensures var s', id := Step(s, a, input).value, s.pc[b].id;
      b in s'.pc && (InLoop(s'.pc[b]) ==>
        && s'.pc[b].id == id && id in s'.shared.mail && Raise in s'.shared.mail[id].queue
        && (if a == b && s.pc[b].Receiving?
            then RaiseAt(s'.shared.mail[id].queue) == RaiseAt(s.shared.mail[id].queue) - 1
            else RaiseAt(s'.shared.mail[id].queue) == RaiseAt(s.shared.mail[id].queue)))
  {
    hide LocksOk, CloseOk, HistoryOk, LiveOwned, WakeOk, Local, MailOk;
    var ch := LocalMailEffect(s.shared, a, s.pc[a], FinishedIn(s.pc), input);
    var (sh', pc') := Local(s.shared, a, s.pc[a], FinishedIn(s.pc), input).value;
    var id := s.pc[b].id;
    var queue := s.shared.mail[id].queue;
    if InLoop(s.pc[a := pc'][b]) {
      ApplyElsewhere(s.shared.mail, ch, id);
      if !ch.Same? && ch.id == id {
        match ch
        case Opened(_) =>
        case Read(_, _) =>
          assert a == b;
          var i :| 0 <= i < |queue| && queue[i] == Raise;
          assert queue[1..][i - 1] == Raise;
        case Closed(_) =>
        case Appended(_, e, _) =>
          RaiseAtAppend(queue, e);
      }
    }
  }

  /** Everything ever put into an invocation's queue. */
  function Log(box: Mail): seq<Entry> {
    box.taken + box.queue
  }

  lemma LogChange(mail: map<nat, Mail>, ch: Change)
    requires ch.Read? || ch.Closed? || ch.Appended?
    requires ch.id in mail
    requires ch.Read? ==> mail[ch.id].queue != [] && (ch.ending.None? ==> mail[ch.id].queue[0].Put?)
    ensures ch.id in Apply(mail, ch)
    ensures Log(Apply(mail, ch)[ch.id]) == Log(mail[ch.id]) + if ch.Appended? then [ch.entry] else []
  {
    var box := mail[ch.id];
    match ch
    case Read(_, _) => assert box.taken + [box.queue[0]] + box.queue[1..] == box.taken + box.queue;
    case Closed(_) =>
    case Appended(_, e, _) => assert box.taken + (box.queue + [e]) == box.taken + box.queue + [e];
  }

  /** A queue grows only when the reader publishes a message carrying that very id, as the
      end mark if it ends the invocation and as it is otherwise, or when the first closer puts
      its exception. */
  lemma OnlyOwnMessagesArrive(s: State, a: Activity, input: Input, id: nat)
    requires Inv(s) && Step(s, a, input).Some? && id in s.shared.mail
    ensures var s' := Step(s, a, input).value;
      id in s'.shared.mail &&
      var before, now := s.shared.mail[id], s'.shared.mail[id];
      || (Log(now) == Log(before) && now.published == before.published)
      || (&& s.pc[a].PublishHoldQ? && s.pc[a].message.invokeId == id
          && Log(now) == Log(before) + [if s.pc[a].message.kind == PluginInvokeEnd then EndMark else Put(s.pc[a].message)]
          && now.published == before.published + [s.pc[a].message])
      || (&& s.pc[a].ClosePutting? && id in s.pc[a].rest
          && Log(now) == Log(before) + [Raise] && now.published == before.published)
  {
    var ch := LocalMailEffect(s.shared, a, s.pc[a], FinishedIn(s.pc), input);
    NeverReopened(s, a, input, ch);
    ApplyElsewhere(s.shared.mail, ch, id);
    if !ch.Same? && ch.id == id {
      LogChange(s.shared.mail, ch);
      ApplyHere(s.shared.mail, ch);
    }
    hide Inv, Local, Apply, Log;
  }

  /** And every message published while its invocation is registered does arrive. */
  lemma PublishedArrives(s: State, a: Activity, input: Input)
    requires a in s.pc && s.pc[a].PublishHoldQ? && Step(s, a, input).Some?
    ensures var s', m := Step(s, a, input).value, s.pc[a].message;
      if IsLive(s.shared.mail, m.invokeId) then
        && m.invokeId in s'.shared.mail
        && s'.shared.mail[m.invokeId].published == s.shared.mail[m.invokeId].published + [m]
      else s'.shared.mail == s.shared.mail
  {
    hide InvokeStep, CloseStep;
  }

  lemma NeverReopened(s: State, a: Activity, input: Input, ch: Change)
    requires Inv(s) && Step(s, a, input).Some?
    requires var (sh', pc') := Local(s.shared, a, s.pc[a], FinishedIn(s.pc), input).value;
      MailEffect(s.shared, s.pc[a], sh', pc', ch)
    ensures ch.Opened? ==> ch.id !in s.shared.mail
  {
    hide LocksOk, CloseOk, HistoryOk, WakeOk, LiveOwned, Local, Apply;
  }

  lemma {:induction false} KeptPrefix(entries: seq<Entry>, n: nat)
    requires n <= |entries| && forall j :: 0 <= j < n ==> !entries[j].Raise?
    ensures n <= |Kept(entries)| && forall j :: 0 <= j < n ==> Kept(entries)[j] == entries[j]
  {
    if n > 0 {
      KeptPrefix(entries[1..], n - 1);
    }
  }

  /** What a caller is told, against the messages published under its id while it was
      registered. It has been given the bodies of the first of them, all responses, in order. It
      returns only at an end message right behind those, raises the plugin's error only at an
      error message there, complains of a type only at a message of another type, and never of
      an id. */
  ghost predicate ToldItsOwn(id: nat, box: Mail) {
    var n := |box.yielded|;
    && (forall j :: 0 <= j < |box.published| ==> box.published[j].invokeId == id)
    && n <= |box.published|
    && (forall j :: 0 <= j < n ==> box.published[j].kind == PluginResponse && box.yielded[j] == box.published[j].body)
    && match box.ending
       case None => true
       case Some(Interrupted) => Raise in box.taken
       case Some(InvalidId) => false
       case Some(Returned) => n < |box.published| && box.published[n].kind == PluginInvokeEnd
       case Some(Reported(body)) => n < |box.published| && box.published[n].kind == Failure && box.published[n].body == body
       case Some(InvalidType) => n < |box.published| && box.published[n].kind in {Info, PluginReady}
       case Some(Unparsable) => n < |box.published| && box.published[n].kind == PluginResponse
  }

  /** At every moment of every run each caller is told what the plugin published for it. */
  lemma CallersAreToldTheirOwn(states: seq<State>, i: nat, id: nat)
    requires Run(states) && i < |states| && id in states[i].shared.mail
    ensures ToldItsOwn(id, states[i].shared.mail[id])
  {
    RunKeepsInv(states, i);
    hide Run, MailOk;
    MailTells(id, states[i].shared.mail[id]);
  }

  lemma MailTells(id: nat, box: Mail)
    requires MailOk(id, box)
    ensures ToldItsOwn(id, box)
  {
    var n, log := |box.yielded|, box.taken + box.queue;
    assert forall j :: 0 <= j < |box.taken| ==> log[j] == box.taken[j];
    KeptPrefix(log, if box.ending.None? || box.ending == Some(Interrupted) then n else n + 1);
    hide Kept;
    assert forall j :: 0 <= j < n ==> Answers(id, log[j], box.yielded[j]);
    if box.ending.Some? {
      assert EndsLoop(id, log[n], box.ending.value);
    }
  }

  /** And it is told: what a caller finds at the head of its queue decides what it does, and
      nothing else does. */
  lemma HeadDecides(s: State, a: Activity, input: Input)
    requires Inv(s) && a in s.pc && s.pc[a].Receiving? && s.shared.mail[s.pc[a].id].queue != []
    ensures Step(s, a, input).Some?
    ensures var s', id := Step(s, a, input).value, s.pc[a].id;
      && id in s'.shared.mail &&
      var box, box' := s.shared.mail[id], s'.shared.mail[id];
      match box.queue[0]
      case EndMark => s'.pc[a] == LeaveWantQ(id) && box'.ending == Some(Returned) && box'.yielded == box.yielded
      case Raise => s'.pc[a] == LeaveWantQ(id) && box'.ending == Some(Interrupted) && box'.yielded == box.yielded
      case Put(m) =>
        if m.kind == PluginResponse && input != Fail then
          s'.pc[a] == Yielding(id) && box'.ending == None && box'.yielded == box.yielded + [m.body]
        else
          && s'.pc[a] == LeaveWantQ(id) && box'.yielded == box.yielded
          && box'.ending == Some(match m.kind
                                 case PluginResponse => Unparsable
                                 case Failure => Reported(m.body)
                                 case _ => InvalidType)
  {
    HeadIsOwn(s, a);
    ReceivingSteps(s, a, input);
    hide Inv, Step;
  }

  lemma ReceivingSteps(s: State, a: Activity, input: Input)
    requires a in s.pc && s.pc[a].Receiving?
    ensures Step(s, a, input) ==
      match Receive(s.shared, s.pc[a].id, input)
      case None => None
      case Some((sh, pc)) => Some(State(sh, s.pc[a := pc]))
  {
    hide Receive, CloseStep, ReaderStep;
  }

  lemma HeadIsOwn(s: State, a: Activity)
    requires RegisteredLive(s) && HistoryOk(s) && a in s.pc && s.pc[a].Receiving?
    ensures s.pc[a].id in s.shared.mail
    ensures var id := s.pc[a].id;
      var queue := s.shared.mail[id].queue;
      queue != [] && queue[0].Put? ==> queue[0].message.invokeId == id
  {
    var id := s.pc[a].id;
    var box := s.shared.mail[id];
    assert MailOk(id, box);
    if box.queue != [] && box.queue[0].Put? {
      var n, log := |box.taken|, box.taken + box.queue;
      assert log[n] == box.queue[0] && forall j :: 0 <= j < n ==> log[j] == box.taken[j];
      KeptPrefix(log, n + 1);
    }
  }

  /** Teardown starts at most once, only one activity is ever in it, and the completion
      event is set only when it is over. */
  lemma TeardownOnce(states: seq<State>, i: nat)
    requires Run(states) && i < |states|
    ensures var s := states[i];
      && s.shared.teardowns <= 1
      && (s.shared.complete ==> s.shared.tornDown && s.shared.teardowns == 1)
      && (forall a, b :: a in s.pc && b in s.pc && TearingDown(s.pc[a]) && TearingDown(s.pc[b]) ==> a == b)
      && (forall a :: a in s.pc && TearingDown(s.pc[a]) ==> s.shared.teardowns == 1 && !s.shared.complete)
  {
    RunKeepsInv(states, i);
    hide LocksOk, IdsOk, WakeOk, HistoryOk;
  }

  /** Who has been joined on the way to closing the pipes. */
  ghost predicate JoinedOk(s: State) {
    && Stdout in s.pc && Stderr in s.pc
    && forall a :: a in s.pc ==>
         && (s.pc[a].JoinStderr? || s.pc[a].Teardown? ==> a == Stdout || s.pc[Stdout] == Finished)
         && (s.pc[a].Teardown? ==> s.pc[Stderr] == Finished)
  }

  lemma JoinEffect(sh: Shared, a: Activity, pc: Pc, finished: set<Activity>, input: Input)
    requires Local(sh, a, pc, finished, input).Some?
    ensures var pc' := Local(sh, a, pc, finished, input).value.1;
      && pc != Finished
      && (pc'.JoinStderr? ==> (pc.WaitProcess? && a == Stdout) || (pc.JoinStdout? && Stdout in finished))
      && (pc'.Teardown? ==> pc.JoinStderr? && Stderr in finished)
  {
    hide InvokeStep, ReaderStep, LockedStep, TeardownStep;
    if InvokePc(pc) {
      hide TakeHead, EndingAt;
      InvokeJoinsNone(sh, a, pc, input);
    } else if ReaderPc(pc) {
      ReaderJoinsNone(sh, a, pc, input);
    } else if LockedPc(pc) {
      LockedJoinsNone(sh, a, pc, input);
    } else {
      TeardownJoins(sh, a, pc, finished, input);
    }
  }

  lemma InvokeJoinsNone(sh: Shared, a: Activity, pc: Pc, input: Input)
    requires InvokePc(pc) && InvokeStep(sh, a, pc, input).Some?
    ensures var pc' := InvokeStep(sh, a, pc, input).value.1; !pc'.JoinStderr? && !pc'.Teardown?
  {
    hide TakeHead, EndingAt;
  }

  lemma ReaderJoinsNone(sh: Shared, a: Activity, pc: Pc, input: Input)
    requires ReaderPc(pc) && ReaderStep(sh, a, pc, input).Some?
    ensures var pc' := ReaderStep(sh, a, pc, input).value.1; pc != Finished && !pc'.JoinStderr? && !pc'.Teardown?
  {
    hide Append;
  }

  lemma LockedJoinsNone(sh: Shared, a: Activity, pc: Pc, input: Input)
    requires LockedPc(pc) && LockedStep(sh, a, pc, input).Some?
    ensures var pc' := LockedStep(sh, a, pc, input).value.1; !pc'.JoinStderr? && !pc'.Teardown?
  {
    hide Live, Append;
  }

  lemma TeardownJoins(sh: Shared, a: Activity, pc: Pc, finished: set<Activity>, input: Input)
    requires !LockedPc(pc) && TeardownStep(sh, a, pc, finished, input).Some?
    ensures var pc' := TeardownStep(sh, a, pc, finished, input).value.1;
      && (pc'.JoinStderr? ==> (pc.WaitProcess? && a == Stdout) || (pc.JoinStdout? && Stdout in finished))
      && (pc'.Teardown? ==> pc.JoinStderr? && Stderr in finished)
  {
  }

  lemma StepKeepsJoined(s: State, a: Activity, input: Input)
    requires JoinedOk(s) && Step(s, a, input).Some?
    ensures JoinedOk(Step(s, a, input).value)
  {
    hide Local;
    JoinEffect(s.shared, a, s.pc[a], FinishedIn(s.pc), input);
  }

  lemma {:induction false} RunKeepsJoined(states: seq<State>, i: nat)
    requires Run(states) && i < |states|
    ensures JoinedOk(states[i])
  {
    hide Step, JoinedOk;
    if i == 0 {
      InitialJoined(states[0]);
    } else {
      RunKeepsJoined(states, i - 1);
      assert Follows(states[i - 1], states[i - 1 + 1]);
      var a, input :| Step(states[i - 1], a, input) == Some(states[i]);
      StepKeepsJoined(states[i - 1], a, input);
    }
  }

  lemma InitialJoined(s: State)
    requires Initial(s)
    ensures JoinedOk(s)
  {
  }

  /** The pipes are closed under no reader: whoever is about to close them finds both reader
      threads at their end, or is the one that is left. */
  lemma PipesOutliveReaders(states: seq<State>, i: nat, a: Activity)
    requires Run(states) && i < |states| && a in states[i].pc && states[i].pc[a].Teardown?
    ensures Stderr in states[i].pc && states[i].pc[Stderr] == Finished
    ensures a == Stdout || (Stdout in states[i].pc && states[i].pc[Stdout] == Finished)
  {
    RunKeepsJoined(states, i);
  }

  /** A close that was not the first returns to its caller only when the teardown is over; the
      first one has done it itself, or has failed at it. */
  lemma CloseReturnsAfterTeardown(states: seq<State>, i: nat, a: Activity, input: Input)
    requires Run(states) && i < |states| && a in states[i].pc && Step(states[i], a, input).Some?
    requires states[i].pc[a].WaitComplete? || states[i].pc[a].SetComplete?
    ensures var s' := Step(states[i], a, input).value;
      s'.shared.complete && s'.shared.tornDown && s'.shared.teardowns == 1
      && s'.pc[a] == if a.User? then Idle else Finished
  {
    RunKeepsInv(states, i);
    StepKeepsInv(states[i], a, input);
    ClosingEnds(states[i], a, input);
    hide LocksOk, IdsOk, WakeOk, HistoryOk, Step, Run;
  }

  lemma ClosingEnds(s: State, a: Activity, input: Input)
    requires a in s.pc && (s.pc[a].WaitComplete? || s.pc[a].SetComplete?) && Step(s, a, input).Some?
    ensures var s' := Step(s, a, input).value;
      s'.shared.complete && a in s'.pc && s'.pc[a] == if a.User? then Idle else Finished
  {
    hide InvokeStep, ReaderStep, LockedStep;
  }

  /** A stopping runner takes no invocation: wherever one notices, it raises, and no queue is
      opened. */
  lemma StoppedRefuses(s: State, a: Activity, input: Input)
    requires a in s.pc && s.shared.stop && Step(s, a, input).Some?
    ensures var s' := Step(s, a, input).value;
      && (s.pc[a].InvokeHoldStop? || s.pc[a].InvokeHoldQ? ==> a in s'.pc && s'.pc[a] == Idle && s'.shared.mail == s.shared.mail)
      && forall id :: id in s'.shared.mail ==> id in s.shared.mail
  {
    if s.pc[a].InvokeHoldStop? || s.pc[a].InvokeHoldQ? {
      HoldingRefuses(s, a, input);
    }
    hide IdEffect, Live, Local, Apply;
    var ch := LocalMailEffect(s.shared, a, s.pc[a], FinishedIn(s.pc), input);
    forall id | id in Step(s, a, input).value.shared.mail
      ensures id in s.shared.mail
    {
      ApplyElsewhere(s.shared.mail, ch, id);
    }
  }

  lemma HoldingRefuses(s: State, a: Activity, input: Input)
    requires a in s.pc && s.shared.stop && Step(s, a, input).Some? && (s.pc[a].InvokeHoldStop? || s.pc[a].InvokeHoldQ?)
    ensures var s' := Step(s, a, input).value; a in s'.pc && s'.pc[a] == Idle && s'.shared.mail == s.shared.mail
  {
    hide ReaderStep, CloseStep;
  }

  /** What begins and what failures do: a caller begins only what it is asked for; a request goes out
      in as many parts as it takes; a write that fails and a caller that gives up leave, giving
      the pipe back; a reader thread whose pipe ends closes the runner or is done; and a process that
      cannot be ended sets the event without joining anyone. */
  lemma FailuresAreHandled(s: State, a: Activity)
    requires a in s.pc
    ensures
      match s.pc[a]
      case Idle =>
        && Step(s, a, BeginInvoke) == Some(State(s.shared, s.pc[a := InvokeWantStop]))
        && Step(s, a, BeginClose) == Some(State(s.shared, s.pc[a := CloseWantStop]))
        && Step(s, a, Proceed).None? && Step(s, a, Fail).None?
      case Writing(id) =>
        && Step(s, a, Chunk) == Some(s)
        && Step(s, a, Fail) == Some(State(s.shared.(pipeLock := None), s.pc[a := LeaveWantQ(id)]))
      case Yielding(id) => Step(s, a, Fail) == Some(State(s.shared, s.pc[a := LeaveWantQ(id)]))
      case Reading =>
        && Step(s, a, Fail) == Some(State(s.shared, s.pc[a := if a == Stdout then CloseWantStop else Finished]))
        && Step(s, a, Proceed) == Some(s)
        && (a != Stdout ==> forall m :: Step(s, a, Line(m)) == Some(s))
      case WaitProcess =>
        && Step(s, a, Fail) == Some(State(s.shared.(tornDown := true), s.pc[a := SetComplete]))
        && Step(s, a, Proceed) == Some(State(s.shared, s.pc[a := if a == Stdout then JoinStderr else JoinStdout]))
      case _ => true
  {
    hide Live, TakeHead, EndingAt, Append, LockedStep;
    assert s.pc[a := s.pc[a]] == s.pc;
  }

  /** What an activity that cannot go on is waiting for. */
  ghost predicate WaitsFor(s: State, a: Activity, b: Activity)
    requires a in s.pc
  {
    var pc := s.pc[a];
    && b in s.pc
    && (|| ((pc.InvokeWantStop? || pc.CloseWantStop?) && s.shared.stopLock == Some(b))
        || ((pc.InvokeWantQ? || pc.CloseWantQ? || pc.LeaveWantQ? || pc.PublishWantQ?) && s.shared.qLock == Some(b))
        || (pc.WantPipe? && s.shared.pipeLock == Some(b))
        || (pc.JoinStdout? && b == Stdout && s.pc[b] != Finished)
        || (pc.JoinStderr? && b == Stderr && s.pc[b] != Finished)
        || (pc.WaitComplete? && !s.shared.complete && s.shared.closer == Some(b)))
  }

  function Rank(pc: Pc): nat {
    match pc
    case WaitComplete => 4
    case JoinStdout | JoinStderr | WaitProcess | Teardown | SetComplete => 3
    case InvokeWantStop | CloseWantStop => 2
    case InvokeWantQ(_) | CloseWantQ | LeaveWantQ(_) | PublishWantQ(_) | WantPipe(_) => 1
    case _ => 0
  }

  lemma WaitsDescend(s: State, a: Activity, b: Activity)
    requires LocksOk(s) && CloseOk(s) && a in s.pc && WaitsFor(s, a, b)
    ensures b in s.pc && Rank(s.pc[a]) > Rank(s.pc[b])
  {
    var pc := s.pc[a];
    assert RoleOk(b, s.pc[b]);
    if pc.JoinStdout? || pc.JoinStderr? {
      assert RoleOk(a, pc) && FirstCloser(pc) && (b == a || !FirstCloser(s.pc[b]));
      hide LocksOk, CloseOk;
    } else if pc.WaitComplete? {
      assert FirstCloser(s.pc[b]);
      hide LocksOk, CloseOk;
    } else {
      hide CloseOk, RoleOk;
    }
  }

  /** No state of any run has a cycle of activities each waiting for the next. */
  lemma {:induction false} NoWaitCycle(states: seq<State>, i: nat, path: seq<Activity>)
    requires Run(states) && i < |states| && |path| >= 2
    requires forall k :: 0 <= k < |path| - 1 ==>
      path[k] in states[i].pc && WaitsFor(states[i], path[k], path[k + 1])
    ensures path[0] != path[|path| - 1]
  {
    RunKeepsInv(states, i);
    hide LocksOk, CloseOk, IdsOk, WakeOk, HistoryOk, WaitsFor;
    RanksDescend(states[i], path);
  }

  lemma {:induction false} RanksDescend(s: State, path: seq<Activity>)
    requires LocksOk(s) && CloseOk(s) && |path| >= 2
    requires forall k :: 0 <= k < |path| - 1 ==> path[k] in s.pc && WaitsFor(s, path[k], path[k + 1])
    ensures path[0] in s.pc && path[|path| - 1] in s.pc
    ensures Rank(s.pc[path[0]]) > Rank(s.pc[path[|path| - 1]])
  {
    hide LocksOk, CloseOk, WaitsFor;
    assert WaitsFor(s, path[0], path[0 + 1]);
    WaitsDescend(s, path[0], path[1]);
    if |path| > 2 {
      var rest := path[1..];
      forall k | 0 <= k < |rest| - 1
        ensures rest[k] in s.pc && WaitsFor(s, rest[k], rest[k + 1])
      {
        assert rest[k] == path[k + 1] && rest[k + 1] == path[k + 1 + 1];
      }
      RanksDescend(s, rest);
    }
  }

  ghost predicate CanMove(s: State, a: Activity) {
    exists input :: Step(s, a, input).Some?
  }

  /** The waits above are all there are: an activity can move unless it has ended, reads an
      empty queue, or waits for another activity. */
  lemma MovesOrWaits(s: State, a: Activity)
    requires Inv(s) && a in s.pc
    ensures
      || CanMove(s, a)
      || s.pc[a] == Finished
      || (s.pc[a].Receiving? && s.shared.mail[s.pc[a].id].queue == [])
      || exists b :: WaitsFor(s, a, b)
  {
    hide HistoryOk, LiveOwned, IdsUnique, Live;
    var pc := s.pc[a];
    if InvokePc(pc) {
      hide CloseStep, ReaderStep;
      InvokeMovesOrWaits(s, a);
    } else if ReaderPc(pc) {
      hide CloseStep, InvokeStep;
      assert pc.PublishWantQ? && s.shared.qLock.Some? ==> WaitsFor(s, a, s.shared.qLock.value);
      assert !pc.Finished? && (pc.PublishWantQ? ==> s.shared.qLock.None?) ==> Step(s, a, Proceed).Some?;
    } else {
      hide InvokeStep, ReaderStep;
      CloseMovesOrWaits(s, a);
    }
  }

  /** A chain of activities, each waiting for the next. */
  ghost predicate WaitingChain(s: State, path: seq<Activity>) {
    && path != []
    && (forall k :: 0 <= k < |path| ==> path[k] in s.pc)
    && (forall k :: 0 <= k < |path| - 1 ==> WaitsFor(s, path[k], path[k + 1]))
  }

  ghost predicate ReadsNothing(s: State, a: Activity)
    requires a in s.pc
  {
    s.pc[a].Receiving? && s.pc[a].id in s.shared.mail && s.shared.mail[s.pc[a].id].queue == []
  }

  /** So no state is stuck for good: from every activity that has not ended, following the
      waits comes to one that can move, or to a caller whose queue is empty. */
  lemma {:induction false} WaitsLeadSomewhere(s: State, a: Activity) returns (path: seq<Activity>)
    requires Inv(s) && a in s.pc && s.pc[a] != Finished
    ensures WaitingChain(s, path) && path[0] == a
    ensures CanMove(s, path[|path| - 1]) || ReadsNothing(s, path[|path| - 1])
    decreases Rank(s.pc[a])
  {
    hide Inv, Step, Rank, WaitsFor;
    if CanMove(s, a) || ReadsNothing(s, a) {
      path := [a];
    } else {
      var b := SomeoneToWaitFor(s, a);
      var rest := WaitsLeadSomewhere(s, b);
      path := [a] + rest;
      forall k | 0 <= k < |path| - 1
        ensures WaitsFor(s, path[k], path[k + 1])
      {
        if k > 0 {
          assert WaitsFor(s, rest[k - 1], rest[k - 1 + 1]);
        }
      }
    }
  }

  lemma SomeoneToWaitFor(s: State, a: Activity) returns (b: Activity)
    requires Inv(s) && a in s.pc && s.pc[a] != Finished && !CanMove(s, a) && !ReadsNothing(s, a)
    ensures WaitsFor(s, a, b) && b in s.pc && s.pc[b] != Finished && Rank(s.pc[b]) < Rank(s.pc[a])
  {
    hide WakeOk, HistoryOk, LiveOwned, IdsUnique, Step;
    MovesOrWaits(s, a);
    b :| WaitsFor(s, a, b);
    WaitsDescend(s, a, b);
    WaitedForIsAlive(s, a, b);
  }

  lemma WaitedForIsAlive(s: State, a: Activity, b: Activity)
    requires LocksOk(s) && CloseOk(s) && a in s.pc && WaitsFor(s, a, b)
    ensures s.pc[b] != Finished
  {
    hide RoleOk;
  }

  lemma InvokeMovesOrWaits(s: State, a: Activity)
    requires LocksOk(s) && RegisteredLive(s) && a in s.pc && InvokePc(s.pc[a])
    ensures
      || CanMove(s, a)
      || (s.pc[a].Receiving? && s.shared.mail[s.pc[a].id].queue == [])
      || exists b :: WaitsFor(s, a, b)
  {
    var pc := s.pc[a];
    hide CloseStep, ReaderStep, LocksOk;
    LockHoldersExist(s);
    if pc.InvokeHoldStop? {
      var id := FreshFor(s.shared.used);
      assert Step(s, a, FreshId(id)).Some?;
    } else if pc.InvokeWantStop? && s.shared.stopLock.Some? {
      assert WaitsFor(s, a, s.shared.stopLock.value);
    } else if (pc.InvokeWantQ? || pc.LeaveWantQ?) && s.shared.qLock.Some? {
      assert WaitsFor(s, a, s.shared.qLock.value);
    } else if pc.WantPipe? && s.shared.pipeLock.Some? {
      assert WaitsFor(s, a, s.shared.pipeLock.value);
    } else if pc.Idle? {
      assert Step(s, a, BeginClose).Some?;
    } else if !(pc.Receiving? && s.shared.mail[pc.id].queue == []) {
      assert Step(s, a, Proceed).Some?;
    }
  }

  lemma LockHoldersExist(s: State)
    requires LocksOk(s)
    ensures s.shared.stopLock.Some? ==> s.shared.stopLock.value in s.pc
    ensures s.shared.qLock.Some? ==> s.shared.qLock.value in s.pc
    ensures s.shared.pipeLock.Some? ==> s.shared.pipeLock.value in s.pc
    ensures Stdout in s.pc && Stderr in s.pc
  {
  }

  lemma CloseMovesOrWaits(s: State, a: Activity)
    requires LocksOk(s) && CloseOk(s) && WakeOk(s)
    requires a in s.pc && !InvokePc(s.pc[a]) && !ReaderPc(s.pc[a])
    ensures CanMove(s, a) || exists b :: WaitsFor(s, a, b)
  {
    var pc := s.pc[a];
    hide InvokeStep, ReaderStep, LocksOk, Live;
    LockHoldersExist(s);
    if pc.ClosePutting? && pc.rest != {} {
      var id :| id in pc.rest;
      assert IsLive(s.shared.mail, id);
      assert Step(s, a, Pick(id)).Some?;
    } else if pc.CloseWantStop? && s.shared.stopLock.Some? {
      assert WaitsFor(s, a, s.shared.stopLock.value);
    } else if pc.CloseWantQ? && s.shared.qLock.Some? {
      assert WaitsFor(s, a, s.shared.qLock.value);
    } else if pc.JoinStdout? && s.pc[Stdout] != Finished {
      assert WaitsFor(s, a, Stdout);
    } else if pc.JoinStderr? && s.pc[Stderr] != Finished {
      assert WaitsFor(s, a, Stderr);
    } else if pc.WaitComplete? && !s.shared.complete {
      assert WaitsFor(s, a, s.shared.closer.value);
    } else {
      assert Step(s, a, Proceed).Some?;
    }
  }

  lemma FreshFor(used: set<nat>) returns (id: nat)
    ensures id !in used
  {
    var rest := used;
    id := 0;
    while rest != {}
      invariant rest <= used
      invariant forall n :: n in used && n !in rest ==> n < id
      decreases rest
    {
      var n :| n in rest;
      rest := rest - {n};
      id := if n < id then id else n + 1;
    }
  }

  // ---- Closing comes to its end, and invocations can be answered.

  function Phase(pc: Pc): nat {
    match pc
    case CloseWantStop => 11
    case CloseWantQ => 10
    case CloseBody => 9
    case ClosePutting(_) => 8
    case CloseReleaseQ(_) => 7
    case CloseReleaseStop(_) => 6
    case WaitProcess => 5
    case JoinStdout => 4
    case JoinStderr => 3
    case Teardown => 2
    case SetComplete | WaitComplete => 1
    case _ => 0
  }

  /** One phase further, or one exception fewer to put. */
  predicate Forward(pc: Pc, pc': Pc) {
    Phase(pc') < Phase(pc) || (pc.ClosePutting? && pc'.ClosePutting? && |pc'.rest| < |pc.rest|)
  }

  /** Every step of a close brings it closer to its end, and nobody else moves it, so it takes
      only finitely many. */
  lemma ClosingGoesForward(s: State, a: Activity, input: Input)
    requires a in s.pc && Phase(s.pc[a]) > 0 && Step(s, a, input).Some?
    ensures var s' := Step(s, a, input).value;
      && a in s'.pc
      && Forward(s.pc[a], s'.pc[a])
      && forall b :: b in s.pc && b != a ==> b in s'.pc && s'.pc[b] == s.pc[b]
  {
    hide InvokeStep, ReaderStep, LockedStep, TeardownStep, Forward;
    if LockedPc(s.pc[a]) {
      LockedForward(s.shared, a, s.pc[a], input);
    } else {
      TeardownForward(s.shared, a, s.pc[a], FinishedIn(s.pc), input);
    }
  }

  lemma LockedForward(sh: Shared, a: Activity, pc: Pc, input: Input)
    requires LockedPc(pc) && LockedStep(sh, a, pc, input).Some?
    ensures Forward(pc, LockedStep(sh, a, pc, input).value.1)
  {
    hide Live, Append;
    if pc.ClosePutting? && pc.rest != {} {
      assert |pc.rest - {input.id}| == |pc.rest| - 1;
    }
  }

  lemma TeardownForward(sh: Shared, a: Activity, pc: Pc, finished: set<Activity>, input: Input)
    requires !LockedPc(pc) && TeardownStep(sh, a, pc, finished, input).Some?
    ensures Forward(pc, TeardownStep(sh, a, pc, finished, input).value.1)
  {
  }

  /** Some steps in a row, each by some activity. */
  function Steps(s: State, moves: seq<(Activity, Input)>): Option<State>
    decreases |moves|
  {
    if moves == [] then Some(s)
    else match Step(s, moves[0].0, moves[0].1)
      case None => None
      case Some(next) => Steps(next, moves[1..])
  }

  lemma {:induction false} StepsJoin(s: State, a: seq<(Activity, Input)>, b: seq<(Activity, Input)>)
    requires Steps(s, a).Some?
    ensures Steps(s, a + b) == Steps(Steps(s, a).value, b)
    decreases |a|
  {
    hide Step;
    if a == [] {
      assert a + b == b;
    } else {
      assert (a + b)[1..] == a[1..] + b;
      StepsJoin(Step(s, a[0].0, a[0].1).value, a[1..], b);
    }
  }

  lemma OneStep(s: State, a: Activity, input: Input)
    ensures Steps(s, [(a, input)]) == Step(s, a, input)
  {
    hide Step;
    assert [(a, input)][1..] == [];
    if Step(s, a, input).Some? {
      assert Steps(Step(s, a, input).value, []) == Step(s, a, input);
    }
  }

  lemma ThreeSteps(s: State, a: Activity, x: Input, y: Input, z: Input, s1: State, s2: State, s3: State)
    requires Step(s, a, x) == Some(s1) && Step(s1, a, y) == Some(s2) && Step(s2, a, z) == Some(s3)
    ensures Steps(s, [(a, x)] + [(a, y)] + [(a, z)]) == Some(s3)
  {
    hide Step;
    OneStep(s, a, x);
    OneStep(s1, a, y);
    OneStep(s2, a, z);
    StepsJoin(s, [(a, x)], [(a, y)]);
    StepsJoin(s, [(a, x)] + [(a, y)], [(a, z)]);
  }

  /** The caller waits for messages, its queue is empty, and the reader thread is free. */
  predicate Expecting(s: State, a: Activity, id: nat) {
    && a.User? && a in s.pc && s.pc[a] == Receiving(id)
    && Stdout in s.pc && s.pc[Stdout] == Reading && s.shared.qLock == None
    && IsLive(s.shared.mail, id) && s.shared.mail[id].queue == []
  }

  /** The plugin prints a message, and the reader thread puts it into its queue. */
  lemma Publishes(s: State, a: Activity, m: Message) returns (s': State)
    requires Expecting(s, a, m.invokeId)
    ensures Steps(s, [(Stdout, Line(m))] + [(Stdout, Proceed)] + [(Stdout, Proceed)]) == Some(s')
    ensures s'.pc == s.pc && s'.shared.qLock == None && IsLive(s'.shared.mail, m.invokeId)
    ensures var box := s'.shared.mail[m.invokeId];
      && box.queue == [if m.kind == PluginInvokeEnd then EndMark else Put(m)]
      && box.yielded == s.shared.mail[m.invokeId].yielded
  {
    hide InvokeStep, CloseStep;
    var s1 := Step(s, Stdout, Line(m)).value;
    var s2 := Step(s1, Stdout, Proceed).value;
    s' := Step(s2, Stdout, Proceed).value;
    assert [] + [EntryOf(m)] == [EntryOf(m)];
    assert s'.pc == s.pc;
    ThreeSteps(s, Stdout, Line(m), Proceed, Proceed, s1, s2, s');
  }

  lemma Delivers(s: State, a: Activity, id: nat, m: Message) returns (s': State)
    requires a.User? && a in s.pc && s.pc[a] == Receiving(id) && Stdout in s.pc && s.pc[Stdout] == Reading
    requires s.shared.qLock == None && IsLive(s.shared.mail, id) && s.shared.mail[id].queue == [Put(m)]
    requires m.invokeId == id && m.kind == PluginResponse
    ensures Steps(s, [(a, Proceed)] + [(a, Proceed)]) == Some(s')
    ensures Expecting(s', a, id) && s'.shared.mail[id].yielded == s.shared.mail[id].yielded + [m.body]
  {
    hide ReaderStep, CloseStep;
    var s1 := Step(s, a, Proceed).value;
    s' := Step(s1, a, Proceed).value;
    hide Step;
    OneStep(s, a, Proceed);
    OneStep(s1, a, Proceed);
    StepsJoin(s, [(a, Proceed)], [(a, Proceed)]);
  }

  lemma Returns(s: State, a: Activity, id: nat) returns (s': State)
    requires a.User? && a in s.pc && s.pc[a] == Receiving(id)
    requires s.shared.qLock == None && IsLive(s.shared.mail, id) && s.shared.mail[id].queue == [EndMark]
    ensures Steps(s, [(a, Proceed)] + [(a, Proceed)] + [(a, Proceed)]) == Some(s')
    ensures a in s'.pc && s'.pc[a] == Idle && id in s'.shared.mail && !s'.shared.mail[id].live
    ensures s'.shared.mail[id].yielded == s.shared.mail[id].yielded && s'.shared.mail[id].ending == Some(Returned)
  {
    hide ReaderStep, CloseStep;
    var s1 := Step(s, a, Proceed).value;
    var s2 := Step(s1, a, Proceed).value;
    s' := Step(s2, a, Proceed).value;
    hide Step;
    ThreeSteps(s, a, Proceed, Proceed, Proceed, s1, s2, s');
  }

  lemma {:induction false} AnswersAll(s: State, a: Activity, id: nat, bodies: seq<string>) returns (moves: seq<(Activity, Input)>)
    requires Expecting(s, a, id)
    ensures Steps(s, moves).Some?
    ensures var s' := Steps(s, moves).value;
      && a in s'.pc && s'.pc[a] == Idle && id in s'.shared.mail && !s'.shared.mail[id].live
      && s'.shared.mail[id].yielded == s.shared.mail[id].yielded + bodies
      && s'.shared.mail[id].ending == Some(Returned)
    decreases |bodies|
  {
    hide Step, Steps;
    var m := if bodies == [] then Message(id, PluginInvokeEnd, "") else Message(id, PluginResponse, bodies[0]);
    var s1 := Publishes(s, a, m);
    var printed := [(Stdout, Line(m))] + [(Stdout, Proceed)] + [(Stdout, Proceed)];
    if bodies == [] {
      var s2 := Returns(s1, a, id);
      moves := printed + ([(a, Proceed)] + [(a, Proceed)] + [(a, Proceed)]);
      StepsJoin(s, printed, [(a, Proceed)] + [(a, Proceed)] + [(a, Proceed)]);
      assert s.shared.mail[id].yielded + [] == s.shared.mail[id].yielded;
    } else {
      var s2 := Delivers(s1, a, id, m);
      var reading := [(a, Proceed)] + [(a, Proceed)];
      var rest := AnswersAll(s2, a, id, bodies[1..]);
      moves := printed + (reading + rest);
      StepsJoin(s, printed, reading + rest);
      StepsJoin(s1, reading, rest);
      assert s.shared.mail[id].yielded + [bodies[0]] + bodies[1..] == s.shared.mail[id].yielded + bodies;
    }
  }

  /** Nothing in the protocol stands in the way of an answer: while the runner is not stopping,
      an idle caller that finds the locks free and the reader thread waiting can invoke, be
      answered with any responses and an end, is then given exactly those, and returns. */
  lemma EveryInvocationCanBeAnswered(s: State, a: Activity, id: nat, bodies: seq<string>) returns (moves: seq<(Activity, Input)>)
    requires a.User? && a in s.pc && s.pc[a] == Idle && Stdout in s.pc && s.pc[Stdout] == Reading
    requires s.shared.stopLock == None && s.shared.qLock == None && s.shared.pipeLock == None
    requires !s.shared.stop && id !in s.shared.used
    ensures Steps(s, moves).Some?
    ensures var s' := Steps(s, moves).value;
      && a in s'.pc && s'.pc[a] == Idle && id in s'.shared.mail && !s'.shared.mail[id].live
      && s'.shared.mail[id].yielded == bodies && s'.shared.mail[id].ending == Some(Returned)
  {
    var start := [(a, BeginInvoke)] + [(a, Proceed)] + [(a, FreshId(id))];
    var register := [(a, Proceed)] + [(a, Proceed)] + [(a, Proceed)];
    var s1 := Starts(s, a, id);
    var s2 := Registers(s1, a, id);
    hide Step, Steps;
    var s3 := Writes(s2, a, id);
    var rest := AnswersAll(s3, a, id, bodies);
    moves := start + (register + ([(a, Proceed)] + rest));
    StepsJoin(s, start, register + ([(a, Proceed)] + rest));
    StepsJoin(s1, register, [(a, Proceed)] + rest);
    StepsJoin(s2, [(a, Proceed)], rest);
    assert [] + bodies == bodies;
  }

  lemma Starts(s: State, a: Activity, id: nat) returns (s': State)
    requires a.User? && a in s.pc && s.pc[a] == Idle && s.shared.stopLock == None
    requires !s.shared.stop && id !in s.shared.used
    ensures Steps(s, [(a, BeginInvoke)] + [(a, Proceed)] + [(a, FreshId(id))]) == Some(s')
    ensures s' == State(s.shared.(used := s.shared.used + {id}), s.pc[a := InvokeWantQ(id)])
  {
    hide ReaderStep, CloseStep;
    var s1 := Step(s, a, BeginInvoke).value;
    var s2 := Step(s1, a, Proceed).value;
    s' := Step(s2, a, FreshId(id)).value;
    hide Step;
    ThreeSteps(s, a, BeginInvoke, Proceed, FreshId(id), s1, s2, s');
  }

  lemma Registers(s: State, a: Activity, id: nat) returns (s': State)
    requires a.User? && a in s.pc && s.pc[a] == InvokeWantQ(id) && s.shared.qLock == None && s.shared.pipeLock == None
    requires !s.shared.stop
    ensures Steps(s, [(a, Proceed)] + [(a, Proceed)] + [(a, Proceed)]) == Some(s')
    ensures s' == State(s.shared.(mail := s.shared.mail[id := NEW_MAIL], pipeLock := Some(a)), s.pc[a := Writing(id)])
  {
    hide ReaderStep, CloseStep;
    var s1 := Step(s, a, Proceed).value;
    var s2 := Step(s1, a, Proceed).value;
    s' := Step(s2, a, Proceed).value;
    hide Step;
    ThreeSteps(s, a, Proceed, Proceed, Proceed, s1, s2, s');
  }

  lemma Writes(s: State, a: Activity, id: nat) returns (s': State)
    requires a.User? && a in s.pc && s.pc[a] == Writing(id) && Stdout in s.pc && s.pc[Stdout] == Reading
    requires s.shared.qLock == None && id in s.shared.mail && s.shared.mail[id] == NEW_MAIL
    ensures Steps(s, [(a, Proceed)]) == Some(s')
    ensures Expecting(s', a, id) && s'.shared.mail[id].yielded == []
  {
    hide ReaderStep, CloseStep;
    s' := Step(s, a, Proceed).value;
    OneStep(s, a, Proceed);
  }
}
