// The outgoing side of the TCP stream: concurrent writers, partial sends, reconnects and
// closes. Whoever holds the lock runs alone among lock users; `close` takes no lock, so its
// effects may fall between any two steps.
module TcpWriter {
  import opened Text

  type Bytes = seq<nat>

  /** A frame someone began to send, and how many of its bytes the socket has taken. */
  datatype Attempt = Attempt(frame: Bytes, taken: nat)

  /** A connection: what its peer was sent, and the history behind it: the frames sent
      whole, and the one begun after them. */
  datatype Connection = Connection(open: bool, sent: Bytes, whole: seq<Bytes>, current: Option<Attempt>)

  datatype Pc =
    | Idle
    | WantWrite(frame: Bytes)
    | WantLaunch(public: bool)
    | Sending(frame: Bytes, rest: Bytes, nested: bool, attempts: nat)
    | Launching
    | Connecting(attempts: nat)
    | Handshaking(rest: Bytes, attempts: nat)
    | InCallback(attempts: nat)

  datatype Shared = Shared(
    alive: bool,
    closed: bool,
    connecting: bool,
    reconnectPending: bool,
    sock: Option<nat>,
    lock: Option<nat>,
    connections: map<nat, Connection>)

  datatype State = State(shared: Shared, pc: map<nat, Pc>)

  /** Fixed for a run: the handshake line and how often a connection is attempted. */
  datatype Config = Config(handshake: Bytes, attempts: nat)

  /** The environment's choice for one step: what a caller asks for, what the socket does. */
  datatype Input =
    | BeginWrite(frame: Bytes)
    | BeginLaunch(public: bool)
    | Proceed
    | Accept(n: nat)
    | FailException
    | FailHard
    | Connect(id: nat, sawClosed: bool)

  /** A thread's step, or one of the three effects of a `close` elsewhere. */
  datatype Action =
    | Thread(t: nat, input: Input)
    | SetClosed
    | DropAlive
    | CloseSocket(id: nat)

  predicate Initial(s: State) {
    && s.shared == Shared(false, false, false, false, None, None, map[])
    && forall t :: t in s.pc ==> s.pc[t] == Idle
  }

  function Shut(connections: map<nat, Connection>, id: nat): map<nat, Connection> {
    if id in connections then connections[id := connections[id].(open := false)] else connections
  }

  /** `sock.close(); self.alive = False`. */
  function Drop(sh: Shared): Shared {
    if sh.sock.Some? then sh.(alive := false, connections := Shut(sh.connections, sh.sock.value))
    else sh.(alive := false)
  }

  function OnSock(sh: Shared, f: Connection -> Connection): Shared {
    if sh.sock.Some? && sh.sock.value in sh.connections then
      sh.(connections := sh.connections[sh.sock.value := f(sh.connections[sh.sock.value])])
    else sh
  }

  function Began(c: Connection, frame: Bytes): Connection {
    c.(current := Some(Attempt(frame, 0)))
  }

  function Grown(c: Connection, more: Bytes): Connection {
    c.(sent := c.sent + more,
       current := if c.current.Some? then Some(c.current.value.(taken := c.current.value.taken + |more|)) else None)
  }

  function Through(c: Connection, frame: Bytes): Connection {
    c.(whole := c.whole + [frame], current := None)
  }

  function Begin(sh: Shared, frame: Bytes): Shared {
    OnSock(sh, c => Began(c, frame))
  }

  function Complete(sh: Shared, frame: Bytes): Shared {
    OnSock(sh, c => Through(c, frame))
  }

  /** A socket takes some bytes at a time, and a closed one none. */
  predicate CanTake(sh: Shared, rest: Bytes, n: nat) {
    sh.sock.Some? && sh.sock.value in sh.connections && sh.connections[sh.sock.value].open && 0 < n <= |rest|
  }

  function Transmit(sh: Shared, more: Bytes): Shared {
    OnSock(sh, c => Grown(c, more))
  }

  function Release(sh: Shared): (Shared, Pc) {
    (sh.(lock := None), Idle)
  }

  /** One step of `write`. */
  function WriteStep(sh: Shared, t: nat, pc: Pc, input: Input): Option<(Shared, Pc)>
    requires pc.WantWrite? || pc.Sending?
  {
    match pc
    case WantWrite(frame) =>
      if sh.lock.Some? then None
      else if !sh.alive then Some((sh, Idle))
      else Some((Begin(sh.(lock := Some(t)), frame), Sending(frame, frame, false, 0)))
    case Sending(frame, rest, nested, attempts) =>
      if rest == [] then
        Some(if nested then (Complete(sh, frame), InCallback(attempts)) else Release(Complete(sh, frame)))
      else
        (match input
         case Accept(n) =>
           if CanTake(sh, rest, n) then Some((Transmit(sh, rest[..n]), Sending(frame, rest[n..], nested, attempts)))
           else None
         case FailException => Some(WriteFailed(Drop(sh), nested, attempts, false))
         case FailHard => Some(WriteFailed(Drop(sh), nested, attempts, true))
         case Proceed => Some((sh, pc))
         case _ => None)
  }

  /** The handler of `write`, after the socket was dropped. */
  function WriteFailed(sh: Shared, nested: bool, attempts: nat, hard: bool): (Shared, Pc) {
    if !sh.closed && !sh.connecting && !hard then (sh, Launching)
    else
      var sh := if !sh.closed && !sh.connecting then sh.(reconnectPending := true) else sh;
      if nested then (sh, InCallback(attempts)) else Release(sh)
  }

  /** One step of `launch`, `_launch` or `_connect_once`. */
  function LaunchStep(cfg: Config, sh: Shared, t: nat, pc: Pc, input: Input): Option<(Shared, Pc)>
    requires !pc.WantWrite? && !pc.Sending?
  {
    match pc
    case Idle =>
      (match input
       case BeginWrite(frame) => Some((sh, WantWrite(frame)))
       case BeginLaunch(public) => Some((sh, WantLaunch(public)))
       case _ => None)
    case WantLaunch(public) =>
      if sh.lock.Some? then None
      else
        // the reader also closes the socket it failed on, if it is still the current one
        var sh := if (public && sh.alive) || (!public && input == FailException) then Drop(sh) else sh;
        Some((sh.(lock := Some(t), closed := !public && sh.closed), Launching))
    case Launching =>
      if sh.alive || sh.closed then Some(Release(sh))
      else Some((sh.(reconnectPending := false, connecting := true), Connecting(0)))
    case Connecting(attempts) =>
      if attempts >= cfg.attempts || (sh.closed && input == Proceed) then Some(Release(sh.(connecting := false)))
      else
        (match input
         case FailException => Some((sh, Connecting(attempts + 1)))
         case FailHard => Some(Release(sh.(connecting := false)))
         case Connect(id, sawClosed) =>
           if id in sh.connections || (sawClosed && !sh.closed) then None
           else if sawClosed then
             Some(Release(sh.(connecting := false,
                              connections := sh.connections[id := Connection(false, [], [], None)])))
           else
             Some((Opened(cfg, sh, id), Handshaking(cfg.handshake, attempts)))
         case _ => None)
    case Handshaking(rest, attempts) =>
      if rest == [] then Some((Complete(sh, cfg.handshake), InCallback(attempts)))
      else
        (match input
         case Accept(n) =>
           if CanTake(sh, rest, n) then Some((Transmit(sh, rest[..n]), Handshaking(rest[n..], attempts))) else None
         case FailException => Some((Drop(sh), Connecting(attempts + 1)))
         case FailHard => Some(Release(Drop(sh).(connecting := false)))
         case _ => None)
    case InCallback(attempts) =>
      (match input
       case BeginWrite(frame) =>
         Some(if sh.alive then (Begin(sh, frame), Sending(frame, frame, true, attempts)) else (sh, pc))
       case FailException => Some((Drop(sh), Connecting(attempts + 1)))
       case FailHard => Some(Release(Drop(sh).(connecting := false)))
       case _ => Some(Release(sh.(connecting := false))))
  }

  function Opened(cfg: Config, sh: Shared, id: nat): Shared {
    sh.(sock := Some(id), alive := true,
        connections := sh.connections[id := Connection(true, [], [], Some(Attempt(cfg.handshake, 0)))])
  }

  function Local(cfg: Config, sh: Shared, t: nat, pc: Pc, input: Input): Option<(Shared, Pc)> {
    if pc.WantWrite? || pc.Sending? then WriteStep(sh, t, pc, input) else LaunchStep(cfg, sh, t, pc, input)
  }

  function Step(cfg: Config, s: State, action: Action): Option<State> {
    match action
    case SetClosed => Some(s.(shared := s.shared.(closed := true)))
    case DropAlive => Some(s.(shared := s.shared.(alive := false)))
    case CloseSocket(id) => Some(s.(shared := s.shared.(connections := Shut(s.shared.connections, id))))
    case Thread(t, input) =>
      if t !in s.pc then None
      else match Local(cfg, s.shared, t, s.pc[t], input)
        case None => None
        case Some((shared, pc)) => Some(State(shared, s.pc[t := pc]))
  }

  ghost predicate Follows(cfg: Config, s: State, s': State) {
    exists action :: Step(cfg, s, action) == Some(s')
  }

  ghost predicate Run(cfg: Config, states: seq<State>) {
    && states != []
    && Initial(states[0])
    && (forall i :: 0 <= i < |states| - 1 ==> Follows(cfg, states[i], states[i + 1]))
  }

  // ---- The invariant.

  predicate Holding(pc: Pc) {
    !pc.Idle? && !pc.WantWrite? && !pc.WantLaunch?
  }

  /** Inside the loop that connects, which is where `_connecting` is set. */
  predicate InLoop(pc: Pc) {
    pc.Connecting? || pc.Handshaking? || pc.InCallback? || (pc.Sending? && pc.nested)
  }

  /** The frame a thread is in the middle of, and what is left of it. */
  function InFlight(cfg: Config, pc: Pc): Option<(Bytes, Bytes)> {
    if pc.Sending? then Some((pc.frame, pc.rest))
    else if pc.Handshaking? then Some((cfg.handshake, pc.rest))
    else None
  }

  /** The bytes of a connection: the handshake, whole frames, then part of the one begun
      last. */
  ghost predicate Framed(cfg: Config, c: Connection) {
    && (c.current.Some? ==> c.current.value.taken <= |c.current.value.frame|)
    && c.sent == Concat(c.whole) + (if c.current.Some? then c.current.value.frame[..c.current.value.taken] else [])
    && (c.whole != [] ==> c.whole[0] == cfg.handshake)
    && (c.whole == [] && c.current.Some? ==> c.current.value.frame == cfg.handshake)
  }

  /** Between frames, ready for the next. */
  predicate Ready(c: Connection) {
    c.whole != [] && c.current.None?
  }

  ghost predicate LockOk(s: State) {
    && (forall t :: t in s.pc ==> (s.shared.lock == Some(t) <==> Holding(s.pc[t])))
    && (s.shared.lock.Some? ==> s.shared.lock.value in s.pc)
    && (forall t :: t in s.pc && Holding(s.pc[t]) ==> (s.shared.connecting <==> InLoop(s.pc[t])))
    && (s.shared.lock.None? ==> !s.shared.connecting)
  }

  /** What the thread is sending is what the current connection has begun, and it goes on
      where it left off. */
  ghost predicate SendingOk(cfg: Config, sh: Shared, pc: Pc) {
    InFlight(cfg, pc).Some? ==>
      var (frame, rest) := InFlight(cfg, pc).value;
      && sh.sock.Some? && sh.sock.value in sh.connections
      && |rest| <= |frame| && rest == frame[|frame| - |rest|..]
      && sh.connections[sh.sock.value].current == Some(Attempt(frame, |frame| - |rest|))
  }

  /** The lock holder's program counter, and `Idle` when the lock is free. */
  function Holder(s: State): Pc {
    if s.shared.lock.Some? && s.shared.lock.value in s.pc then s.pc[s.shared.lock.value] else Idle
  }

  ghost predicate Busy(cfg: Config, sh: Shared, holder: Pc, id: nat) {
    sh.sock == Some(id) && InFlight(cfg, holder).Some?
  }

  ghost predicate ConnectionOk(cfg: Config, sh: Shared, holder: Pc, id: nat)
    requires id in sh.connections
  {
    && Framed(cfg, sh.connections[id])
    && (Ready(sh.connections[id]) || !sh.connections[id].open || Busy(cfg, sh, holder, id))
  }

  /** The invariant seen by the lock holder. */
  ghost predicate SharedOk(cfg: Config, sh: Shared, holder: Pc) {
    && (forall id :: id in sh.connections ==> ConnectionOk(cfg, sh, holder, id))
    && SendingOk(cfg, sh, holder)
    && (sh.sock.Some? ==> sh.sock.value in sh.connections)
    && (sh.alive ==> sh.sock.Some? && (Ready(sh.connections[sh.sock.value]) || Busy(cfg, sh, holder, sh.sock.value)))
  }

  ghost predicate Inv(cfg: Config, s: State) {
    LockOk(s) && SharedOk(cfg, s.shared, Holder(s))
  }

  lemma InitialInv(cfg: Config, s: State)
    requires Initial(s)
    ensures Inv(cfg, s)
  {
  }

  // ---- What happens to one connection.

  lemma FramedBegan(cfg: Config, c: Connection, frame: Bytes)
    requires Framed(cfg, c) && Ready(c)
    ensures Framed(cfg, Began(c, frame))
  {
    assert frame[..0] == [];
  }

  lemma FramedGrown(cfg: Config, c: Connection, n: nat)
    requires Framed(cfg, c) && c.current.Some? && c.current.value.taken + n <= |c.current.value.frame|
    ensures var k := c.current.value.taken; Framed(cfg, Grown(c, c.current.value.frame[k..k + n]))
  {
    var frame, k := c.current.value.frame, c.current.value.taken;
    assert frame[..k] + frame[k..k + n] == frame[..k + n];
    assert Concat(c.whole) + frame[..k] + frame[k..k + n] == Concat(c.whole) + frame[..k + n];
  }

  lemma FramedThrough(cfg: Config, c: Connection, frame: Bytes)
    requires Framed(cfg, c) && c.current == Some(Attempt(frame, |frame|))
    ensures Framed(cfg, Through(c, frame)) && Ready(Through(c, frame))
  {
    ConcatSnoc(c.whole, frame);
    assert frame[..|frame|] == frame;
  }

  lemma BeginKeeps(cfg: Config, sh: Shared, pc: Pc, frame: Bytes, pc': Pc)
    requires SharedOk(cfg, sh, pc) && InFlight(cfg, pc).None? && sh.alive
    requires InFlight(cfg, pc') == Some((frame, frame))
    ensures SharedOk(cfg, Begin(sh, frame), pc')
  {
    hide Framed;
    var id := sh.sock.value;
    FramedBegan(cfg, sh.connections[id], frame);
    assert frame[0..] == frame;
    var sh' := Begin(sh, frame);
    assert sh' == sh.(connections := sh.connections[id := Began(sh.connections[id], frame)]);
    forall other | other in sh'.connections
      ensures ConnectionOk(cfg, sh', pc', other)
    {
      if other != id {
        assert ConnectionOk(cfg, sh, pc, other);
      }
    }
  }

  lemma TransmitKeeps(cfg: Config, sh: Shared, pc: Pc, n: nat, pc': Pc)
    requires SharedOk(cfg, sh, pc) && InFlight(cfg, pc).Some? && n <= |InFlight(cfg, pc).value.1|
    requires InFlight(cfg, pc') == Some((InFlight(cfg, pc).value.0, InFlight(cfg, pc).value.1[n..]))
    ensures SharedOk(cfg, Transmit(sh, InFlight(cfg, pc).value.1[..n]), pc')
  {
    hide Framed;
    var (frame, rest) := InFlight(cfg, pc).value;
    var k := |frame| - |rest|;
    assert rest[..n] == frame[k..k + n];
    assert rest[n..] == frame[k + n..];
    FramedGrown(cfg, sh.connections[sh.sock.value], n);
  }

  lemma CompleteKeeps(cfg: Config, sh: Shared, pc: Pc, pc': Pc)
    requires SharedOk(cfg, sh, pc) && InFlight(cfg, pc).Some? && InFlight(cfg, pc).value.1 == []
    requires InFlight(cfg, pc').None?
    ensures SharedOk(cfg, Complete(sh, InFlight(cfg, pc).value.0), pc')
  {
    hide Framed;
    var (frame, rest) := InFlight(cfg, pc).value;
    FramedThrough(cfg, sh.connections[sh.sock.value], frame);
  }

  lemma FramedShut(cfg: Config, c: Connection)
    requires Framed(cfg, c)
    ensures Framed(cfg, c.(open := false)) && (Ready(c) <==> Ready(c.(open := false)))
  {
  }

  lemma DropFields(sh: Shared)
    ensures var sh' := Drop(sh);
      && !sh'.alive && sh'.sock == sh.sock
      && (forall id :: id in sh'.connections <==> id in sh.connections)
      && (forall id :: id in sh.connections ==>
            sh'.connections[id] == if sh.sock == Some(id) then sh.connections[id].(open := false) else sh.connections[id])
  {
  }

  lemma DropKeeps(cfg: Config, sh: Shared, pc: Pc, pc': Pc)
    requires SharedOk(cfg, sh, pc) && InFlight(cfg, pc').None?
    ensures SharedOk(cfg, Drop(sh), pc') && !Drop(sh).alive
  {
    hide Drop, Framed, Ready;
    DropFields(sh);
    var sh' := Drop(sh);
    forall id | id in sh'.connections
      ensures ConnectionOk(cfg, sh', pc', id)
    {
      DropKeepsOne(cfg, sh, pc, sh', pc', id);
    }
  }

  lemma DropKeepsOne(cfg: Config, sh: Shared, pc: Pc, sh': Shared, pc': Pc, id: nat)
    requires id in sh.connections && id in sh'.connections && ConnectionOk(cfg, sh, pc, id)
    requires sh'.connections[id] == if sh.sock == Some(id) then sh.connections[id].(open := false) else sh.connections[id]
    ensures ConnectionOk(cfg, sh', pc', id)
  {
    hide Framed, Ready, InFlight;
    FramedShut(cfg, sh.connections[id]);
  }

  lemma OpenKeeps(cfg: Config, sh: Shared, pc: Pc, id: nat, pc': Pc)
    requires SharedOk(cfg, sh, pc) && InFlight(cfg, pc).None? && id !in sh.connections
    requires InFlight(cfg, pc') == Some((cfg.handshake, cfg.handshake))
    ensures SharedOk(cfg, Opened(cfg, sh, id), pc')
  {
    assert cfg.handshake[..0] == [];
    assert cfg.handshake[0..] == cfg.handshake;
  }

  /** The flags other than `alive`, and the lock, do not matter to the connections. */
  lemma FlagsKeep(cfg: Config, sh: Shared, pc: Pc, sh': Shared, pc': Pc)
    requires SharedOk(cfg, sh, pc) && InFlight(cfg, pc) == InFlight(cfg, pc')
    requires sh'.connections == sh.connections && sh'.sock == sh.sock && (sh'.alive ==> sh.alive)
    ensures SharedOk(cfg, sh', pc')
  {
    hide Framed;
  }

  // ---- One thread's step keeps the invariant.

  lemma WriteKeeps(cfg: Config, sh: Shared, t: nat, pc: Pc, input: Input)
    requires (pc.WantWrite? || pc.Sending?) && WriteStep(sh, t, pc, input).Some?
    requires SharedOk(cfg, sh, pc)
    ensures var (sh', pc') := WriteStep(sh, t, pc, input).value; SharedOk(cfg, sh', pc')
  {
    hide SharedOk, Begin, Transmit, Complete, Drop;
    var (sh', pc') := WriteStep(sh, t, pc, input).value;
    if pc.WantWrite? {
      if sh.alive {
        FlagsKeep(cfg, sh, pc, sh.(lock := Some(t)), pc);
        BeginKeeps(cfg, sh.(lock := Some(t)), pc, pc.frame, pc');
      } else {
        FlagsKeep(cfg, sh, pc, sh, pc');
      }
    } else if pc.rest == [] {
      CompleteKeeps(cfg, sh, pc, pc');
      FlagsKeep(cfg, Complete(sh, pc.frame), pc', sh', pc');
    } else if input.Accept? {
      TransmitKeeps(cfg, sh, pc, input.n, pc');
    } else if !input.Proceed? {
      DropKeeps(cfg, sh, pc, pc');
      FlagsKeep(cfg, Drop(sh), pc', sh', pc');
    }
  }

  lemma LaunchKeeps(cfg: Config, sh: Shared, t: nat, pc: Pc, input: Input)
    requires !pc.WantWrite? && !pc.Sending? && !pc.Handshaking? && LaunchStep(cfg, sh, t, pc, input).Some?
    requires SharedOk(cfg, sh, pc)
    ensures var (sh', pc') := LaunchStep(cfg, sh, t, pc, input).value; SharedOk(cfg, sh', pc')
  {
    hide SharedOk, Begin, Transmit, Complete, Drop, Opened;
    var (sh', pc') := LaunchStep(cfg, sh, t, pc, input).value;
    if pc.WantLaunch? && ((pc.public && sh.alive) || (!pc.public && input == FailException)) {
      DropKeeps(cfg, sh, pc, pc);
      FlagsKeep(cfg, Drop(sh), pc, sh', pc');
    } else if pc.Connecting? && input.Connect? && pc'.Handshaking? {
      OpenKeeps(cfg, sh, pc, input.id, pc');
    } else if pc.Connecting? && pc.attempts < cfg.attempts && input.Connect? {
      StillbornKeeps(cfg, sh, pc, input.id, sh', pc');
    } else if pc.InCallback? && input.BeginWrite? {
      if sh.alive {
        BeginKeeps(cfg, sh, pc, input.frame, pc');
      }
    } else if pc.InCallback? && (input.FailException? || input.FailHard?) {
      DropKeeps(cfg, sh, pc, pc');
      FlagsKeep(cfg, Drop(sh), pc', sh', pc');
    } else {
      FlagsKeep(cfg, sh, pc, sh', pc');
    }
  }

  lemma StillbornKeeps(cfg: Config, sh: Shared, pc: Pc, id: nat, sh': Shared, pc': Pc)
    requires SharedOk(cfg, sh, pc) && InFlight(cfg, pc).None? && InFlight(cfg, pc').None?
    requires id !in sh.connections
    requires sh'.connections == sh.connections[id := Connection(false, [], [], None)]
    requires sh'.sock == sh.sock && sh'.alive == sh.alive
    ensures SharedOk(cfg, sh', pc')
  {
  }

  lemma HandshakeKeeps(cfg: Config, sh: Shared, t: nat, pc: Pc, input: Input)
    requires pc.Handshaking? && LaunchStep(cfg, sh, t, pc, input).Some?
    requires SharedOk(cfg, sh, pc)
    ensures var (sh', pc') := LaunchStep(cfg, sh, t, pc, input).value; SharedOk(cfg, sh', pc')
  {
    hide SharedOk, Begin, Transmit, Complete, Drop, Opened;
    var (sh', pc') := LaunchStep(cfg, sh, t, pc, input).value;
    if pc.rest == [] {
      CompleteKeeps(cfg, sh, pc, pc');
    } else if input.Accept? {
      TransmitKeeps(cfg, sh, pc, input.n, pc');
    } else {
      DropKeeps(cfg, sh, pc, pc');
      FlagsKeep(cfg, Drop(sh), pc', sh', pc');
    }
  }

  ghost predicate LockEffect(sh: Shared, t: nat, pc: Pc, sh': Shared, pc': Pc) {
    && sh'.lock == (if Holding(pc') then Some(t) else if Holding(pc) then None else sh.lock)
    && (Holding(pc') ==> (sh'.connecting <==> InLoop(pc')) && (Holding(pc) || sh.lock == None))
    && (!Holding(pc') && Holding(pc) ==> !sh'.connecting)
    && (!Holding(pc') && !Holding(pc) ==> sh' == sh)
  }

  lemma WriteLock(cfg: Config, sh: Shared, t: nat, pc: Pc, input: Input)
    requires (pc.WantWrite? || pc.Sending?) && WriteStep(sh, t, pc, input).Some?
    requires (sh.lock == Some(t) <==> Holding(pc)) && (Holding(pc) ==> (sh.connecting <==> InLoop(pc)))
    requires sh.lock.None? ==> !sh.connecting
    ensures var (sh', pc') := WriteStep(sh, t, pc, input).value; LockEffect(sh, t, pc, sh', pc')
  {
    hide Shut, CanTake, Began, Grown, Through;
  }

  lemma LaunchLock(cfg: Config, sh: Shared, t: nat, pc: Pc, input: Input)
    requires !pc.WantWrite? && !pc.Sending? && LaunchStep(cfg, sh, t, pc, input).Some?
    requires (sh.lock == Some(t) <==> Holding(pc)) && (Holding(pc) ==> (sh.connecting <==> InLoop(pc)))
    requires sh.lock.None? ==> !sh.connecting
    ensures var (sh', pc') := LaunchStep(cfg, sh, t, pc, input).value; LockEffect(sh, t, pc, sh', pc')
  {
    hide Shut, CanTake, Began, Grown, Through;
  }

  lemma LocalLock(cfg: Config, sh: Shared, t: nat, pc: Pc, input: Input)
    requires Local(cfg, sh, t, pc, input).Some?
    requires (sh.lock == Some(t) <==> Holding(pc)) && (Holding(pc) ==> (sh.connecting <==> InLoop(pc)))
    requires sh.lock.None? ==> !sh.connecting
    ensures var (sh', pc') := Local(cfg, sh, t, pc, input).value; LockEffect(sh, t, pc, sh', pc')
  {
    hide WriteStep, LaunchStep, LockEffect;
    if pc.WantWrite? || pc.Sending? {
      WriteLock(cfg, sh, t, pc, input);
    } else {
      LaunchLock(cfg, sh, t, pc, input);
    }
  }

  lemma ThreadKeepsInv(cfg: Config, s: State, t: nat, input: Input)
    requires Inv(cfg, s) && t in s.pc && Local(cfg, s.shared, t, s.pc[t], input).Some?
    ensures Inv(cfg, Step(cfg, s, Thread(t, input)).value)
  {
    hide Local, SharedOk;
    var sh, pc := s.shared, s.pc[t];
    var (sh', pc') := Local(cfg, sh, t, pc, input).value;
    var s' := Step(cfg, s, Thread(t, input)).value;
    LocalLock(cfg, sh, t, pc, input);
    assert LockOk(s');
    if Holding(pc) || Holding(pc') {
      if !Holding(pc) {
        FlagsKeep(cfg, sh, Idle, sh, pc);
      }
      LocalKeeps(cfg, sh, t, pc, input);
      if !Holding(pc') {
        FlagsKeep(cfg, sh', pc', sh', Idle);
      }
    } else {
      FlagsKeep(cfg, sh, Holder(s), sh', Holder(s'));
    }
  }

  lemma LocalKeeps(cfg: Config, sh: Shared, t: nat, pc: Pc, input: Input)
    requires Local(cfg, sh, t, pc, input).Some? && SharedOk(cfg, sh, pc)
    ensures var (sh', pc') := Local(cfg, sh, t, pc, input).value; SharedOk(cfg, sh', pc')
  {
    hide SharedOk, WriteStep, LaunchStep;
    if pc.WantWrite? || pc.Sending? {
      WriteKeeps(cfg, sh, t, pc, input);
    } else if pc.Handshaking? {
      HandshakeKeeps(cfg, sh, t, pc, input);
    } else {
      LaunchKeeps(cfg, sh, t, pc, input);
    }
  }

  lemma ShutKeeps(cfg: Config, sh: Shared, pc: Pc, id: nat)
    requires SharedOk(cfg, sh, pc)
    ensures SharedOk(cfg, sh.(connections := Shut(sh.connections, id)), pc)
  {
    hide Concat;
    var sh' := sh.(connections := Shut(sh.connections, id));
    forall other | other in sh'.connections
      ensures ConnectionOk(cfg, sh', pc, other)
    {
      assert ConnectionOk(cfg, sh, pc, other);
    }
  }

  lemma CloseKeepsInv(cfg: Config, s: State, action: Action)
    requires Inv(cfg, s) && !action.Thread?
    ensures Inv(cfg, Step(cfg, s, action).value)
  {
    hide SharedOk, Shut;
    var s' := Step(cfg, s, action).value;
    if action.CloseSocket? {
      ShutKeeps(cfg, s.shared, Holder(s), action.id);
    } else {
      FlagsKeep(cfg, s.shared, Holder(s), s'.shared, Holder(s'));
    }
  }

  lemma StepKeepsInv(cfg: Config, s: State, action: Action)
    requires Inv(cfg, s) && Step(cfg, s, action).Some?
    ensures Inv(cfg, Step(cfg, s, action).value)
  {
    hide Inv, Local;
    if action.Thread? {
      ThreadKeepsInv(cfg, s, action.t, action.input);
    } else {
      CloseKeepsInv(cfg, s, action);
    }
  }

  lemma {:induction false} RunKeepsInv(cfg: Config, states: seq<State>, i: nat)
    requires Run(cfg, states) && i < |states|
    ensures Inv(cfg, states[i])
  {
    hide Inv, Step;
    if i == 0 {
      InitialInv(cfg, states[0]);
    } else {
      RunKeepsInv(cfg, states, i - 1);
      assert Follows(cfg, states[i - 1], states[i - 1 + 1]);
      var action :| Step(cfg, states[i - 1], action) == Some(states[i]);
      StepKeepsInv(cfg, states[i - 1], action);
    }
  }

  // ---- What a connection keeps from state to state.

  /** A connection's past stays: bytes and whole frames are only added, and to a closed
      connection no bytes are. */
  ghost predicate Later(c: Connection, c': Connection) {
    c.sent <= c'.sent && c.whole <= c'.whole && (!c.open ==> !c'.open && c'.sent == c.sent)
  }

  ghost predicate AllLater(a: map<nat, Connection>, b: map<nat, Connection>) {
    forall id :: id in a ==> id in b && Later(a[id], b[id])
  }

  lemma OnSockLater(sh: Shared, f: Connection -> Connection)
    requires sh.sock.Some? && sh.sock.value in sh.connections ==>
      Later(sh.connections[sh.sock.value], f(sh.connections[sh.sock.value]))
    ensures AllLater(sh.connections, OnSock(sh, f).connections)
  {
  }

  lemma ShutLater(connections: map<nat, Connection>, id: nat)
    ensures AllLater(connections, Shut(connections, id))
  {
  }

  lemma WriteLater(cfg: Config, sh: Shared, t: nat, pc: Pc, input: Input)
    requires (pc.WantWrite? || pc.Sending?) && WriteStep(sh, t, pc, input).Some?
    ensures AllLater(sh.connections, WriteStep(sh, t, pc, input).value.0.connections)
  {
    hide OnSock, Shut, AllLater, CanTake;
    NothingLater(sh.connections);
    if pc.WantWrite? {
      OnSockLater(sh.(lock := Some(t)), c => Began(c, pc.frame));
    } else if pc.rest == [] {
      OnSockLater(sh, c => Through(c, pc.frame));
    } else if input.Accept? {
      GrownLater(sh, pc.rest, input.n);
    } else if sh.sock.Some? {
      ShutLater(sh.connections, sh.sock.value);
    }
  }

  lemma NothingLater(connections: map<nat, Connection>)
    ensures AllLater(connections, connections)
  {
  }

  lemma GrownLater(sh: Shared, rest: Bytes, n: nat)
    requires CanTake(sh, rest, n)
    ensures AllLater(sh.connections, Transmit(sh, rest[..n]).connections)
  {
    OnSockLater(sh, c => Grown(c, rest[..n]));
  }

  lemma HandshakeLater(cfg: Config, sh: Shared, t: nat, pc: Pc, input: Input)
    requires pc.Handshaking? && LaunchStep(cfg, sh, t, pc, input).Some?
    ensures AllLater(sh.connections, LaunchStep(cfg, sh, t, pc, input).value.0.connections)
  {
    hide OnSock, Shut;
    OnSockLater(sh, c => Through(c, cfg.handshake));
    if input.Accept? && CanTake(sh, pc.rest, input.n) {
      OnSockLater(sh, c => Grown(c, pc.rest[..input.n]));
    }
    if sh.sock.Some? {
      ShutLater(sh.connections, sh.sock.value);
    }
  }

  lemma LaunchLater(cfg: Config, sh: Shared, t: nat, pc: Pc, input: Input)
    requires !pc.WantWrite? && !pc.Sending? && !pc.Handshaking? && LaunchStep(cfg, sh, t, pc, input).Some?
    ensures AllLater(sh.connections, LaunchStep(cfg, sh, t, pc, input).value.0.connections)
  {
    hide OnSock, Shut;
    if input.BeginWrite? {
      OnSockLater(sh, c => Began(c, input.frame));
    }
    if sh.sock.Some? {
      ShutLater(sh.connections, sh.sock.value);
    }
  }

  lemma StepLater(cfg: Config, s: State, action: Action)
    requires Step(cfg, s, action).Some?
    ensures AllLater(s.shared.connections, Step(cfg, s, action).value.shared.connections)
  {
    hide WriteStep, LaunchStep, Shut;
    if action.CloseSocket? {
      ShutLater(s.shared.connections, action.id);
    } else if action.Thread? {
      var pc := s.pc[action.t];
      if pc.WantWrite? || pc.Sending? {
        WriteLater(cfg, s.shared, action.t, pc, action.input);
      } else if pc.Handshaking? {
        HandshakeLater(cfg, s.shared, action.t, pc, action.input);
      } else {
        LaunchLater(cfg, s.shared, action.t, pc, action.input);
      }
    }
  }

  lemma {:induction false} RunLater(cfg: Config, states: seq<State>, i: nat, j: nat)
    requires Run(cfg, states) && i <= j < |states|
    ensures AllLater(states[i].shared.connections, states[j].shared.connections)
  {
    hide Step;
    if i < j {
      RunLater(cfg, states, i, j - 1);
      assert Follows(cfg, states[j - 1], states[j - 1 + 1]);
      var action :| Step(cfg, states[j - 1], action) == Some(states[j]);
      StepLater(cfg, states[j - 1], action);
    }
  }

  // ---- The main results.

  /** Someone is in the middle of a frame on this connection. */
  ghost predicate Writing(cfg: Config, s: State, id: nat) {
    exists t :: t in s.pc && InFlight(cfg, s.pc[t]).Some? && s.shared.sock == Some(id)
  }

  /** Every connection's outgoing bytes, at every moment of every run: the handshake line,
      whole frames one after the other, and at most one frame cut short at the end, which is
      either being written or the end of a closed connection. */
  lemma ConnectionsCarryWholeFrames(cfg: Config, states: seq<State>, i: nat, id: nat)
    requires Run(cfg, states) && i < |states| && id in states[i].shared.connections
    ensures var c := states[i].shared.connections[id];
      && Framed(cfg, c)
      && (c.current.Some? && !Writing(cfg, states[i], id) ==> !c.open)
  {
    RunKeepsInv(cfg, states, i);
    assert ConnectionOk(cfg, states[i].shared, Holder(states[i]), id);
  }

  /** No two threads are ever in the middle of a frame, the handshake included. */
  lemma OneFrameAtATime(cfg: Config, states: seq<State>, i: nat, t: nat, u: nat)
    requires Run(cfg, states) && i < |states| && t in states[i].pc && u in states[i].pc
    ensures InFlight(cfg, states[i].pc[t]).Some? && InFlight(cfg, states[i].pc[u]).Some? ==> t == u
  {
    hide SharedOk;
    RunKeepsInv(cfg, states, i);
  }

  /** A frame cut short is the last thing its peer ever gets on that connection. */
  lemma NothingAfterATruncation(cfg: Config, states: seq<State>, i: nat, j: nat, id: nat)
    requires Run(cfg, states) && i <= j < |states| && id in states[i].shared.connections
    ensures states[i].shared.connections[id].current.Some? && !Writing(cfg, states[i], id) ==>
      && id in states[j].shared.connections
      && states[j].shared.connections[id].sent == states[i].shared.connections[id].sent
  {
    hide Step, Framed, Inv;
    ConnectionsCarryWholeFrames(cfg, states, i, id);
    RunLater(cfg, states, i, j);
  }

  /** What a peer has got is never taken back, and frames stay whole frames. */
  lemma SentOnlyGrows(cfg: Config, states: seq<State>, i: nat, j: nat, id: nat)
    requires Run(cfg, states) && i <= j < |states| && id in states[i].shared.connections
    ensures id in states[j].shared.connections
    ensures states[i].shared.connections[id].sent <= states[j].shared.connections[id].sent
    ensures states[i].shared.connections[id].whole <= states[j].shared.connections[id].whole
  {
    hide Step;
    RunLater(cfg, states, i, j);
  }

  /** A write that runs out of bytes has put its whole frame, and nothing else, behind what
      the peer had before. */
  lemma FinishedWriteIsWhole(cfg: Config, states: seq<State>, i: nat, t: nat, input: Input)
    requires Run(cfg, states) && i < |states| && t in states[i].pc
    requires states[i].pc[t].Sending? && states[i].pc[t].rest == []
    ensures var sh, frame := states[i].shared, states[i].pc[t].frame;
      && sh.sock.Some? && sh.sock.value in sh.connections
      && Step(cfg, states[i], Thread(t, input)).Some?
      && var sh' := Step(cfg, states[i], Thread(t, input)).value.shared;
      && sh.sock.value in sh'.connections
      && sh'.connections[sh.sock.value].whole == sh.connections[sh.sock.value].whole + [frame]
      && sh'.connections[sh.sock.value].sent == sh.connections[sh.sock.value].sent
      && sh'.connections[sh.sock.value].sent == Concat(sh.connections[sh.sock.value].whole) + frame
  {
    RunKeepsInv(cfg, states, i);
    var s := states[i];
    var frame := s.pc[t].frame;
    assert Holder(s) == s.pc[t];
    assert ConnectionOk(cfg, s.shared, Holder(s), s.shared.sock.value);
    assert frame[..|frame|] == frame;
  }

  /** A failed registration never starts a second connecting loop inside the first. */
  lemma LoopsDoNotNest(cfg: Config, states: seq<State>, i: nat, t: nat, input: Input)
    requires Run(cfg, states) && i < |states| && t in states[i].pc
    requires InLoop(states[i].pc[t]) && Step(cfg, states[i], Thread(t, input)).Some?
    ensures !Step(cfg, states[i], Thread(t, input)).value.pc[t].Launching?
  {
    hide SharedOk, OnSock, Shut;
    RunKeepsInv(cfg, states, i);
  }

  // ---- Failures and attempts.

  /** How many attempts a connecting loop has behind it. */
  predicate AttemptsOk(cfg: Config, pc: Pc) {
    match pc
    case Connecting(n) => n <= cfg.attempts
    case Handshaking(_, n) => n < cfg.attempts
    case InCallback(n) => n < cfg.attempts
    case Sending(_, _, nested, n) => nested ==> n < cfg.attempts
    case _ => true
  }

  lemma LocalAttempts(cfg: Config, sh: Shared, t: nat, pc: Pc, input: Input)
    requires Local(cfg, sh, t, pc, input).Some? && AttemptsOk(cfg, pc)
    ensures AttemptsOk(cfg, Local(cfg, sh, t, pc, input).value.1)
  {
    hide OnSock, Shut, CanTake, Opened;
  }

  /** No loop ever makes more attempts than configured. */
  lemma {:induction false} AttemptsNeverExceed(cfg: Config, states: seq<State>, i: nat, t: nat)
    requires Run(cfg, states) && i < |states| && t in states[i].pc
    ensures AttemptsOk(cfg, states[i].pc[t])
  {
    hide Local, AttemptsOk;
    if i == 0 {
      assert AttemptsOk(cfg, Idle) by { IdleAttempts(cfg); }
    } else {
      assert Follows(cfg, states[i - 1], states[i - 1 + 1]);
      var action :| Step(cfg, states[i - 1], action) == Some(states[i]);
      AttemptsNeverExceed(cfg, states, i - 1, t);
      if action.Thread? && action.t == t {
        LocalAttempts(cfg, states[i - 1].shared, t, states[i - 1].pc[t], action.input);
      }
    }
  }

  lemma IdleAttempts(cfg: Config)
    ensures AttemptsOk(cfg, Idle)
  {
  }

  /** A write that fails leaves its connection closed and dead. Unless the stream is closed, an
      ordinary failure outside a connecting loop connects again at once, another one leaves that to the
      reader, and inside a loop the failure is the loop's. */
  lemma FailedWriteIsHandled(cfg: Config, s: State, t: nat, input: Input)
    requires Inv(cfg, s) && t in s.pc && s.pc[t].Sending? && s.pc[t].rest != [] && (input == FailException || input == FailHard)
    ensures Step(cfg, s, Thread(t, input)).Some?
    ensures var sh, sh', pc' := s.shared, Step(cfg, s, Thread(t, input)).value.shared, Step(cfg, s, Thread(t, input)).value.pc[t];
      && !sh'.alive && sh.sock.Some? && sh.sock.value in sh'.connections && !sh'.connections[sh.sock.value].open
      && (s.pc[t].nested ==> pc' == InCallback(s.pc[t].attempts) && sh'.reconnectPending == sh.reconnectPending)
      && (!s.pc[t].nested && sh.closed ==> pc' == Idle && sh'.lock == None && sh'.reconnectPending == sh.reconnectPending)
      && (!s.pc[t].nested && !sh.closed && input == FailException ==> pc' == Launching)
      && (!s.pc[t].nested && !sh.closed && input == FailHard ==> pc' == Idle && sh'.lock == None && sh'.reconnectPending)
  {
    hide Framed, Begin, Complete, Transmit, LaunchStep, CanTake;
    assert s.shared.connecting <==> s.pc[t].nested by { HeldConnecting(s, t); }
    hide LockOk;
  }

  lemma HeldConnecting(s: State, t: nat)
    requires LockOk(s) && t in s.pc && s.pc[t].Sending?
    ensures s.shared.connecting <==> s.pc[t].nested
  {
  }

  /** A connecting loop starts only on a dead stream that is not closed, which settles a reconnect
      left pending. It goes on with its next attempt after a failure to connect, to shake hands
      or to register, and ends when the attempts are used up or the stream was closed. */
  lemma LoopGoesOn(cfg: Config, s: State, t: nat)
    requires t in s.pc && AttemptsOk(cfg, s.pc[t])
    ensures
      match s.pc[t]
      case Launching =>
        && Step(cfg, s, Thread(t, Proceed)).Some?
        && var s' := Step(cfg, s, Thread(t, Proceed)).value;
           if s.shared.alive || s.shared.closed then s'.pc[t] == Idle && s'.shared == s.shared.(lock := None)
           else s'.pc[t] == Connecting(0) && s'.shared == s.shared.(reconnectPending := false, connecting := true)
      case Connecting(n) =>
        if n == cfg.attempts || s.shared.closed then
          && Step(cfg, s, Thread(t, Proceed)).Some?
          && Left(s, Step(cfg, s, Thread(t, Proceed)).value, t)
        else Step(cfg, s, Thread(t, FailException)) == Some(s.(pc := s.pc[t := Connecting(n + 1)]))
      case Handshaking(rest, n) =>
        rest != [] ==>
          && Step(cfg, s, Thread(t, FailException)).Some?
          && var s' := Step(cfg, s, Thread(t, FailException)).value; s'.pc[t] == Connecting(n + 1) && !s'.shared.alive
      case InCallback(n) =>
        && Step(cfg, s, Thread(t, FailException)).Some?
        && var s' := Step(cfg, s, Thread(t, FailException)).value; s'.pc[t] == Connecting(n + 1) && !s'.shared.alive
      case _ => true
  {
    hide WriteStep, OnSock, Shut, CanTake, Opened;
  }

  /** The thread has left the loop and given the lock back; the current socket is as it was. */
  predicate Left(s: State, s': State, t: nat) {
    t in s'.pc && s'.pc[t] == Idle && s'.shared.lock == None && !s'.shared.connecting && s'.shared.sock == s.shared.sock
  }

  /** Another failure than an ordinary one leaves the loop, from a connection that was up with it
      closed. A connection made while the stream was being closed never becomes current. While
      registering, writes go out on the new connection. */
  lemma LoopIsLeft(cfg: Config, s: State, t: nat, id: nat, frame: Bytes)
    requires t in s.pc
    ensures
      match s.pc[t]
      case Connecting(n) =>
        n < cfg.attempts ==>
          && Step(cfg, s, Thread(t, FailHard)).Some?
          && Left(s, Step(cfg, s, Thread(t, FailHard)).value, t)
          && (s.shared.closed && id !in s.shared.connections ==>
                && Step(cfg, s, Thread(t, Connect(id, true))).Some?
                && var s' := Step(cfg, s, Thread(t, Connect(id, true))).value;
                   Left(s, s', t) && id in s'.shared.connections && !s'.shared.connections[id].open)
      case Handshaking(rest, n) =>
        rest != [] ==>
          && Step(cfg, s, Thread(t, FailHard)).Some?
          && Left(s, Step(cfg, s, Thread(t, FailHard)).value, t) && !Step(cfg, s, Thread(t, FailHard)).value.shared.alive
      case InCallback(n) =>
        && Step(cfg, s, Thread(t, FailHard)).Some?
        && Left(s, Step(cfg, s, Thread(t, FailHard)).value, t) && !Step(cfg, s, Thread(t, FailHard)).value.shared.alive
        && (s.shared.alive ==>
              && Step(cfg, s, Thread(t, BeginWrite(frame))).Some?
              && Step(cfg, s, Thread(t, BeginWrite(frame))).value.pc[t] == Sending(frame, frame, true, n))
      case _ => true
  {
    hide WriteStep, OnSock, Shut, CanTake, Opened;
  }

  /** The three effects of a `close`, whenever they come. */
  lemma CloseTakesEffect(cfg: Config, s: State, id: nat)
    ensures Step(cfg, s, SetClosed) == Some(s.(shared := s.shared.(closed := true)))
    ensures Step(cfg, s, DropAlive) == Some(s.(shared := s.shared.(alive := false)))
    ensures Step(cfg, s, CloseSocket(id)).Some?
    ensures id in s.shared.connections ==>
      var s' := Step(cfg, s, CloseSocket(id)).value; id in s'.shared.connections && !s'.shared.connections[id].open
  {
  }

  // ---- Every frame can be sent.

  /** Some actions in a row. */
  function Steps(cfg: Config, s: State, actions: seq<Action>): Option<State>
    decreases |actions|
  {
    if actions == [] then Some(s)
    else match Step(cfg, s, actions[0])
      case None => None
      case Some(next) => Steps(cfg, next, actions[1..])
  }

  lemma {:induction false} StepsJoin(cfg: Config, s: State, a: seq<Action>, b: seq<Action>)
    requires Steps(cfg, s, a).Some?
    ensures Steps(cfg, s, a + b) == Steps(cfg, Steps(cfg, s, a).value, b)
    decreases |a|
  {
    hide Step;
    if a == [] {
      assert a + b == b;
    } else {
      assert (a + b)[1..] == a[1..] + b;
      StepsJoin(cfg, Step(cfg, s, a[0]).value, a[1..], b);
    }
  }

  lemma StepsSnoc(cfg: Config, s: State, before: seq<Action>, action: Action)
    requires Steps(cfg, s, before).Some?
    ensures Steps(cfg, s, before + [action]) == Step(cfg, Steps(cfg, s, before).value, action)
  {
    hide Step;
    StepsJoin(cfg, s, before, [action]);
    var mid := Steps(cfg, s, before).value;
    assert [action][1..] == [];
    if Step(cfg, mid, action).Some? {
      assert Steps(cfg, Step(cfg, mid, action).value, []) == Step(cfg, mid, action);
    }
  }

  /** Thread `t` is idle, nobody holds the lock, and connection `id` is up. */
  predicate Up(s: State, t: nat, id: nat) {
    && t in s.pc && s.pc[t] == Idle && s.shared.lock == None && s.shared.alive && s.shared.sock == Some(id)
    && id in s.shared.connections && s.shared.connections[id].open
  }

  lemma SendsRest(cfg: Config, s: State, t: nat, id: nat) returns (actions: seq<Action>, s': State)
    requires t in s.pc && s.shared.sock == Some(id) && id in s.shared.connections && s.shared.connections[id].open
    requires s.pc[t].Sending? || s.pc[t].Handshaking?
    ensures Steps(cfg, s, actions) == Some(s')
    ensures t in s'.pc && id in s'.shared.connections
    ensures s'.pc[t] ==
      match s.pc[t]
      case Sending(frame, _, nested, n) => Sending(frame, [], nested, n)
      case Handshaking(_, n) => Handshaking([], n)
      case pc => pc
    ensures s'.shared == s.shared.(connections := s'.shared.connections)
    ensures var c, c' := s.shared.connections[id], s'.shared.connections[id];
      c'.open && c'.sent == c.sent + s.pc[t].rest && c'.whole == c.whole
  {
    if s.pc[t].rest == [] {
      actions, s' := [], s;
      assert s.shared.connections[id].sent + [] == s.shared.connections[id].sent;
    } else {
      var n := |s.pc[t].rest|;
      var take := Thread(t, Accept(n));
      assert s.pc[t].rest[..n] == s.pc[t].rest && s.pc[t].rest[n..] == [];
      s' := Step(cfg, s, take).value;
      actions := [] + [take];
      hide Step;
      StepsSnoc(cfg, s, [], take);
    }
  }

  lemma SendsFrame(cfg: Config, s: State, t: nat, id: nat, frame: Bytes) returns (actions: seq<Action>, s': State)
    requires Up(s, t, id)
    ensures Steps(cfg, s, actions) == Some(s') && Up(s', t, id)
    ensures s'.shared.connections[id].sent == s.shared.connections[id].sent + frame
    ensures s'.shared.connections[id].whole == s.shared.connections[id].whole + [frame]
  {
    hide Shut, CanTake;
    var begin, lock := Thread(t, BeginWrite(frame)), Thread(t, Proceed);
    var s1 := Step(cfg, s, begin).value;
    var s2 := Step(cfg, s1, lock).value;
    assert s2.shared.connections[id].sent == s.shared.connections[id].sent;
    var more, s3 := SendsRest(cfg, s2, t, id);
    s' := Step(cfg, s3, lock).value;
    assert Up(s', t, id);
    hide Step, Up;
    StepsSnoc(cfg, s, [], begin);
    StepsSnoc(cfg, s, [] + [begin], lock);
    StepsJoin(cfg, s, [] + [begin] + [lock], more);
    StepsSnoc(cfg, s, [] + [begin] + [lock] + more, lock);
    actions := [] + [begin] + [lock] + more + [lock];
  }

  lemma Reaches(cfg: Config, s: State, t: nat, id: nat) returns (actions: seq<Action>, s': State)
    requires t in s.pc && s.pc[t] == Idle && s.shared.lock == None && id !in s.shared.connections && cfg.attempts > 0
    ensures Steps(cfg, s, actions) == Some(s')
    ensures t in s'.pc && s'.pc[t] == Handshaking(cfg.handshake, 0) && s'.shared.sock == Some(id) && s'.shared.alive
    ensures id in s'.shared.connections && s'.shared.connections[id].open
    ensures s'.shared.connections[id].sent == [] && s'.shared.connections[id].whole == []
  {
    hide WriteStep, CanTake;
    var begin, proceed, connect := Thread(t, BeginLaunch(true)), Thread(t, Proceed), Thread(t, Connect(id, false));
    var s1 := Step(cfg, s, begin).value;
    var s2 := Step(cfg, s1, proceed).value;
    assert id !in s2.shared.connections && !s2.shared.alive && !s2.shared.closed;
    var s3 := Step(cfg, s2, proceed).value;
    s' := Step(cfg, s3, connect).value;
    hide Step;
    StepsSnoc(cfg, s, [], begin);
    StepsSnoc(cfg, s, [] + [begin], proceed);
    StepsSnoc(cfg, s, [] + [begin] + [proceed], proceed);
    StepsSnoc(cfg, s, [] + [begin] + [proceed] + [proceed], connect);
    actions := [] + [begin] + [proceed] + [proceed] + [connect];
  }

  lemma Connects(cfg: Config, s: State, t: nat, id: nat) returns (actions: seq<Action>, s': State)
    requires t in s.pc && s.pc[t] == Idle && s.shared.lock == None && id !in s.shared.connections && cfg.attempts > 0
    ensures Steps(cfg, s, actions) == Some(s') && Up(s', t, id)
    ensures s'.shared.connections[id].sent == cfg.handshake && s'.shared.connections[id].whole == [cfg.handshake]
  {
    var before, s1 := Reaches(cfg, s, t, id);
    var more, s2 := SendsRest(cfg, s1, t, id);
    var proceed := Thread(t, Proceed);
    hide WriteStep, Shut, CanTake;
    var s3 := Step(cfg, s2, proceed).value;
    s' := Step(cfg, s3, proceed).value;
    assert [] + cfg.handshake == cfg.handshake && [] + [cfg.handshake] == [cfg.handshake];
    assert Up(s', t, id);
    hide Step, Up;
    StepsJoin(cfg, s, before, more);
    StepsSnoc(cfg, s, before + more, proceed);
    StepsSnoc(cfg, s, before + more + [proceed], proceed);
    actions := before + more + [proceed] + [proceed];
  }

  lemma {:induction false} SendsAll(cfg: Config, s: State, t: nat, id: nat, frames: seq<Bytes>)
    returns (actions: seq<Action>, s': State)
    requires Up(s, t, id)
    ensures Steps(cfg, s, actions) == Some(s') && Up(s', t, id)
    ensures s'.shared.connections[id].sent == s.shared.connections[id].sent + Concat(frames)
    ensures s'.shared.connections[id].whole == s.shared.connections[id].whole + frames
    decreases |frames|
  {
    hide Step;
    var c := s.shared.connections[id];
    if frames == [] {
      actions, s' := [], s;
      assert c.sent + [] == c.sent && c.whole + [] == c.whole;
    } else {
      var first, s1 := SendsFrame(cfg, s, t, id, frames[0]);
      var rest, s2 := SendsAll(cfg, s1, t, id, frames[1..]);
      actions, s' := first + rest, s2;
      StepsJoin(cfg, s, first, rest);
      assert c.sent + frames[0] + Concat(frames[1..]) == c.sent + Concat(frames);
      assert c.whole + [frames[0]] + frames[1..] == c.whole + frames;
    }
  }

  /** Nothing in the protocol stands in the way of a frame: whenever the lock is free, an idle
      thread can launch a new connection and send any frames over it, and its peer then has the
      handshake and exactly those. */
  lemma EveryFrameCanBeSent(cfg: Config, s: State, t: nat, id: nat, frames: seq<Bytes>) returns (actions: seq<Action>)
    requires t in s.pc && s.pc[t] == Idle && s.shared.lock == None && id !in s.shared.connections && cfg.attempts > 0
    ensures Steps(cfg, s, actions).Some?
    ensures var s' := Steps(cfg, s, actions).value;
      && Up(s', t, id)
      && s'.shared.connections[id].sent == cfg.handshake + Concat(frames)
      && s'.shared.connections[id].whole == [cfg.handshake] + frames
  {
    hide Step;
    var connecting, s1 := Connects(cfg, s, t, id);
    var sending, s2 := SendsAll(cfg, s1, t, id, frames);
    actions := connecting + sending;
    StepsJoin(cfg, s, connecting, sending);
  }

  // ---- The loop that sends one frame.

  datatype Sent = Took(n: nat) | NotReady | Broken

  class Socket {
    var open: bool
    var sent: Bytes

    method Send(data: Bytes) returns (r: Sent)
      requires data != []
      modifies this`sent
      ensures r.Took? ==> r.n <= |data| && sent == old(sent) + data[..r.n]
      ensures !r.Took? ==> sent == old(sent)
    {
      if !open {
        return Broken;
      }
      var ready: bool := *;
      if !ready {
        return NotReady;
      }
      var n :| 0 <= n <= |data|;
      sent := sent + data[..n];
      return Took(n);
    }
  }

  datatype Progress = AllSent | Failed | StillSending(rest: Bytes)

  /** The first `n` bytes of the frame have gone out, and the loop is where `r` says. */
  ghost predicate WentOut(before: Bytes, after: Bytes, data: Bytes, n: nat, r: Progress) {
    && n <= |data| && after == before + data[..n]
    && (r == AllSent ==> n == |data|)
    && (r.StillSending? ==> n < |data| && r.rest == data[n..])
  }

  /** `_write_data`, watched for any number of rounds of its loop, since a socket may never be
      ready: what has gone out is always the frame from its start, all of it once the loop is
      over, and what is left is the rest of it. */
  method WriteData(socket: Socket, data: Bytes, rounds: nat) returns (r: Progress)
    modifies socket`sent
    ensures exists n: nat :: WentOut(old(socket.sent), socket.sent, data, n, r)
  {
    var rest := data;
    ghost var taken: nat := 0;
    var left := rounds;
    while rest != [] && left > 0
      invariant taken <= |data| && rest == data[taken..]
      invariant socket.sent == old(socket.sent) + data[..taken]
      decreases left
    {
      var sent := socket.Send(rest);
      if sent.Took? {
        assert data[..taken] + rest[..sent.n] == data[..taken + sent.n];
        rest := rest[sent.n..];
        taken := taken + sent.n;
      }
      if sent == Took(0) || sent == Broken {
        assert WentOut(old(socket.sent), socket.sent, data, taken, Failed);
        return Failed;
      }
      left := left - 1;
    }
    r := if rest == [] then AllSent else StillSending(rest);
    assert WentOut(old(socket.sent), socket.sent, data, taken, r);
  }
}
