// The response writer of one serverless request and the HTTP consumer that drains it.
// Everything under the writer's lock is one step; spawning, waiting for and killing the
// task are steps of their own.
module Serverless {
  import opened Text

  /** Where a call of `execute` is. Its task lives in `tasks`. */
  datatype Executor = Waiting(task: nat) | Clearing(task: nat) | Killing(task: nat)

  datatype Task = Task(finished: bool, told: bool)

  /** Where the consumer's generator is; `Closing` is its `finally`. */
  datatype Consumer = Reading | Closing | Gone

  datatype State = State(
    queue: seq<Option<string>>,
    closed: bool,
    task: Option<nat>,
    tasks: map<nat, Task>,
    executors: map<nat, Executor>,
    killers: map<nat, nat>,
    consumer: Consumer,
    // history: the writes accepted, what the consumer was given, whether it met the end
    // mark, whether `done` was accepted, whether some `close` went through
    accepted: seq<string>,
    seen: seq<string>,
    ended: bool,
    done: bool,
    drained: bool)

  const INITIAL := State([], false, None, map[], map[], map[], Reading, [], [], false, false, false)

  datatype Action =
    | Spawn(caller: nat, task: nat)
    | TaskFinishes(task: nat)
    | GetReturns(caller: nat)
    | ClearTask(caller: nat)
    | KillOwn(caller: nat)
    | Write(data: string)
    | Finish
    | CloseLocked(caller: nat)
    | CloseKill(caller: nat)
    | Consume
    | GiveUp
    | ConsumerCloses(caller: nat)

  function Kill(tasks: map<nat, Task>, t: nat): map<nat, Task> {
    if t in tasks then tasks[t := tasks[t].(told := true)] else tasks
  }

  /** The locked part of `close`: flag, note the task, drain the queue. */
  function Close(s: State, caller: nat): State {
    var killers := if s.task.Some? then s.killers[caller := s.task.value] else s.killers;
    s.(closed := true, queue := [], drained := true, killers := killers)
  }

  predicate IsQuiet(action: Action) {
    action.Write? || action.Finish? || action.Consume? || action.GiveUp?
  }

  /** The steps that only touch the queue and its two ends. */
  function QueueStep(s: State, action: Action): Option<State>
    requires IsQuiet(action)
  {
    match action
    case Write(data) =>
      if s.closed then Some(s) else Some(s.(queue := s.queue + [Some(data)], accepted := s.accepted + [data]))
    case Finish =>
      if s.closed then Some(s) else Some(s.(closed := true, queue := s.queue + [None], done := true))
    case Consume =>
      if s.consumer != Reading || s.queue == [] then None
      else
        var e := s.queue[0];
        var s := s.(queue := s.queue[1..]);
        Some(match e
             case None => s.(consumer := Closing, ended := true)
             case Some(data) => s.(seen := s.seen + [data]))
    case GiveUp =>
      // the connection's lifetime is over, or the client went away
      if s.consumer == Reading then Some(s.(consumer := Closing)) else None
  }

  /** The steps of `execute` and `close` and of the task. */
  function TaskStep(s: State, action: Action): Option<State>
    requires !IsQuiet(action)
  {
    match action
    case Spawn(e, t) =>
      if e in s.executors || t in s.tasks then None
      else if s.closed then Some(s)
      else
        Some(s.(task := Some(t), tasks := s.tasks[t := Task(false, false)], executors := s.executors[e := Waiting(t)]))
    case TaskFinishes(t) =>
      if t in s.tasks then Some(s.(tasks := s.tasks[t := s.tasks[t].(finished := true)])) else None
    case GetReturns(e) =>
      // the task is over, or the wait itself is interrupted
      if e in s.executors && s.executors[e].Waiting? then
        Some(s.(executors := s.executors[e := Clearing(s.executors[e].task)]))
      else None
    case ClearTask(e) =>
      if e in s.executors && s.executors[e].Clearing? then
        Some(s.(task := None, executors := s.executors[e := Killing(s.executors[e].task)]))
      else None
    case KillOwn(e) =>
      if e in s.executors && s.executors[e].Killing? then
        Some(s.(tasks := Kill(s.tasks, s.executors[e].task), executors := s.executors - {e}))
      else None
    case CloseLocked(c) => if c in s.killers then None else Some(Close(s, c))
    case CloseKill(c) =>
      if c in s.killers then Some(s.(tasks := Kill(s.tasks, s.killers[c]), killers := s.killers - {c})) else None
    case ConsumerCloses(c) =>
      if s.consumer == Closing && c !in s.killers then Some(Close(s, c).(consumer := Gone)) else None
  }

  function Step(s: State, action: Action): Option<State> {
    if IsQuiet(action) then QueueStep(s, action) else TaskStep(s, action)
  }

  function Run(actions: seq<Action>): Option<State> {
    if actions == [] then Some(INITIAL)
    else match Run(actions[..|actions| - 1])
      case None => None
      case Some(s) => Step(s, actions[|actions| - 1])
  }

  /** The queue as it would be had it never been drained: the accepted writes, then the end
      mark if `done` was accepted. */
  function Stream(s: State): seq<Option<string>> {
    Wrap(s.accepted) + if s.done then [None] else []
  }

  function Wrap(texts: seq<string>): (r: seq<Option<string>>)
    ensures |r| == |texts| && forall i :: 0 <= i < |texts| ==> r[i] == Some(texts[i])
  {
    seq(|texts|, i requires 0 <= i < |texts| => Some(texts[i]))
  }

  /** What the consumer has met. */
  function Met(s: State): seq<Option<string>> {
    Wrap(s.seen) + if s.ended then [None] else []
  }

  ghost predicate StreamOk(s: State) {
    && (!s.drained ==> Met(s) + s.queue == Stream(s))
    && Met(s) <= Stream(s)
    && (s.drained ==> s.queue == [] && s.closed)
    && (s.done ==> s.closed)
    && (s.ended ==> s.done && s.consumer != Reading)
    && (s.consumer == Gone ==> s.drained)
  }

  lemma Grows(s: State, s': State, e: Option<string>)
    requires StreamOk(s) && !s.closed && Met(s') == Met(s) && s'.queue == s.queue + [e] && !s'.drained
    requires Stream(s') == Wrap(s.accepted) + [e]
    ensures Met(s') + s'.queue == Stream(s') && Met(s') <= Stream(s')
  {
    assert Stream(s) == Wrap(s.accepted);
    assert Met(s) + (s.queue + [e]) == Met(s) + s.queue + [e];
  }

  lemma WrapSnoc(texts: seq<string>, text: string)
    ensures Wrap(texts + [text]) == Wrap(texts) + [Some(text)]
  {
  }

  lemma WriteKept(s: State, data: string)
    requires StreamOk(s)
    ensures StreamOk(Step(s, Write(data)).value)
  {
    hide Wrap;
    if !s.closed {
      WrapSnoc(s.accepted, data);
      Grows(s, Step(s, Write(data)).value, Some(data));
    }
  }

  lemma FinishKept(s: State)
    requires StreamOk(s)
    ensures StreamOk(Step(s, Finish).value)
  {
    if !s.closed {
      Grows(s, Step(s, Finish).value, None);
    }
  }

  lemma MoveHead<T>(met: seq<T>, queue: seq<T>)
    requires queue != []
    ensures (met + [queue[0]]) + queue[1..] == met + queue
  {
  }

  lemma ConsumeKept(s: State)
    requires StreamOk(s) && Step(s, Consume).Some?
    ensures StreamOk(Step(s, Consume).value)
  {
    var s' := Step(s, Consume).value;
    var e := s.queue[0];
    assert e.None? ==> s.done by {
      assert Stream(s)[|Met(s)|] == e;
    }
    hide Wrap;
    assert Stream(s') == Stream(s) && !s.ended && !s.drained;
    assert Met(s) == Wrap(s.seen);
    if e.Some? {
      WrapSnoc(s.seen, e.value);
    }
    assert Met(s') == Met(s) + [e];
    MoveHead(Met(s), s.queue);
    assert Met(s') + s'.queue == Stream(s');
  }

  lemma StreamKept(s: State, action: Action)
    requires StreamOk(s) && Step(s, action).Some?
    ensures StreamOk(Step(s, action).value)
  {
    hide Wrap, Kill;
    match action
    case Write(data) => WriteKept(s, data);
    case Finish => FinishKept(s);
    case Consume => ConsumeKept(s);
    case _ =>
  }

  lemma {:induction false} RunKeepsStream(actions: seq<Action>)
    requires Run(actions).Some?
    ensures StreamOk(Run(actions).value)
  {
    if actions != [] {
      RunKeepsStream(actions[..|actions| - 1]);
      StreamKept(Run(actions[..|actions| - 1]).value, actions[|actions| - 1]);
    }
  }

  /** The writes before the writer was closed, by `done` or by a `close`. */
  function OpenWrites(actions: seq<Action>): seq<string> {
    if actions == [] then []
    else match actions[0]
      case Write(data) => [data] + OpenWrites(actions[1..])
      case Finish => []
      case CloseLocked(_) => []
      case ConsumerCloses(_) => []
      case _ => OpenWrites(actions[1..])
  }

  predicate Closes(action: Action) {
    action.Finish? || action.CloseLocked? || action.ConsumerCloses?
  }

  predicate AnyCloses(actions: seq<Action>) {
    exists i :: 0 <= i < |actions| && Closes(actions[i])
  }

  lemma {:induction false} OpenWritesSnoc(actions: seq<Action>, action: Action)
    ensures OpenWrites(actions + [action])
         == OpenWrites(actions) + if action.Write? && !AnyCloses(actions) then [action.data] else []
  {
    if actions == [] {
      assert actions + [action] == [action] && [action][1..] == [];
      assert !AnyCloses(actions);
    } else {
      var rest := actions[1..];
      assert (actions + [action])[1..] == rest + [action];
      OpenWritesSnoc(rest, action);
      assert AnyCloses(actions) <==> Closes(actions[0]) || AnyCloses(rest) by {
        assert actions == [actions[0]] + rest;
        if AnyCloses(rest) {
          var i :| 0 <= i < |rest| && Closes(rest[i]);
          assert Closes(actions[i + 1]);
        }
        if AnyCloses(actions) && !Closes(actions[0]) {
          var i :| 0 <= i < |actions| && Closes(actions[i]);
          assert Closes(rest[i - 1]);
        }
      }
    }
  }

  /** What a step does to the flag and to the accepted writes. */
  lemma StepAccepts(s: State, action: Action)
    requires Step(s, action).Some?
    ensures var s' := Step(s, action).value;
      && (s'.closed <==> s.closed || Closes(action))
      && s'.accepted == s.accepted + (if action.Write? && !s.closed then [action.data] else [])
      && (s'.done <==> s.done || (action.Finish? && !s.closed))
      && (s'.drained <==> s.drained || action.CloseLocked? || action.ConsumerCloses?)
  {
    if IsQuiet(action) {
      hide TaskStep;
      match action
      case Write(_) =>
      case Finish =>
      case Consume =>
      case GiveUp =>
    } else {
      hide QueueStep, Kill;
    }
  }

  lemma {:induction false} RunAccepts(actions: seq<Action>)
    requires Run(actions).Some?
    ensures var s := Run(actions).value;
      && s.accepted == OpenWrites(actions)
      && (s.closed <==> AnyCloses(actions))
  {
    if actions != [] {
      var before, action := actions[..|actions| - 1], actions[|actions| - 1];
      assert actions == before + [action];
      RunAccepts(before);
      hide Step, OpenWrites;
      StepAccepts(Run(before).value, action);
      OpenWritesSnoc(before, action);
      assert AnyCloses(actions) <==> AnyCloses(before) || Closes(action) by {
        if AnyCloses(before) {
          var i :| 0 <= i < |before| && Closes(before[i]);
          assert Closes(actions[i]);
        }
        assert actions[|actions| - 1] == action;
      }
    }
  }

  /** For every interleaving the consumer sees a prefix of the writes made before the writer
      was closed; it meets at most one end mark, and only after all of them. Until some `close`
      drains the queue, whatever it has not seen is still there. */
  lemma ConsumerSeesAPrefix(actions: seq<Action>)
    requires Run(actions).Some?
    ensures var s := Run(actions).value;
      && s.seen <= OpenWrites(actions)
      && (s.ended ==> s.seen == OpenWrites(actions) && s.consumer != Reading)
      && (!s.drained ==>
            Wrap(s.seen) + (if s.ended then [None] else []) + s.queue
            == Wrap(OpenWrites(actions)) + if s.done then [None] else [])
  {
    RunKeepsStream(actions);
    RunAccepts(actions);
    var s := Run(actions).value;
    assert forall i :: 0 <= i < |s.seen| ==> Met(s)[i] == Some(s.seen[i]) && Met(s)[i] == Stream(s)[i];
    assert forall i :: 0 <= i < |s.accepted| ==> Stream(s)[i] == Some(s.accepted[i]);
    assert s.done ==> Stream(s)[|s.accepted|] == None;
    assert s.ended ==> Met(s)[|s.seen|] == None && Met(s)[|s.seen|] == Stream(s)[|s.seen|];
  }

  /** Once some `close` went through, the queue is and stays empty, and no task starts. */
  lemma ClosedStaysQuiet(actions: seq<Action>, action: Action)
    requires Run(actions).Some? && Run(actions).value.drained && Step(Run(actions).value, action).Some?
    ensures var s, s' := Run(actions).value, Step(Run(actions).value, action).value;
      s'.drained && s.queue == [] && s'.queue == [] && s'.tasks.Keys == s.tasks.Keys
  {
    RunKeepsStream(actions);
  }

  /** An `execute` on an open writer starts and notes its task; on a closed one it does nothing.
      Nothing but the wait for the task holds it up: it clears the note, tells its task to
      die, and is over. */
  lemma ExecuteGoesOn(s: State, c: nat, t: nat)
    ensures c !in s.executors && t !in s.tasks ==>
      && Step(s, Spawn(c, t)).Some?
      && var s' := Step(s, Spawn(c, t)).value;
         if s.closed then s' == s
         else s'.task == Some(t) && t in s'.tasks && s'.tasks[t] == Task(false, false) && c in s'.executors
              && s'.executors[c] == Waiting(t)
    ensures c in s.executors ==>
      var own := s.executors[c].task;
      match s.executors[c]
      case Waiting(_) =>
        Step(s, GetReturns(c)) == Some(s.(executors := s.executors[c := Clearing(own)]))
      case Clearing(_) =>
        Step(s, ClearTask(c)) == Some(s.(executors := s.executors[c := Killing(own)], task := None))
      case Killing(_) =>
        && Step(s, KillOwn(c)).Some?
        && c !in Step(s, KillOwn(c)).value.executors
        && (own in s.tasks ==> Settled(Step(s, KillOwn(c)).value, own))
    ensures t in s.tasks ==>
      Step(s, TaskFinishes(t)).Some? && t in Step(s, TaskFinishes(t)).value.tasks && Step(s, TaskFinishes(t)).value.tasks[t].finished
  {
    hide QueueStep;
  }

  /** A `close` can always be made and goes on to its end, at which the task it noted is told to
      die; the consumer reads whenever the queue has something, and closes when it is through. */
  lemma CloseAndConsumerGoOn(s: State, c: nat)
    ensures c !in s.killers ==> Step(s, CloseLocked(c)).Some? && Step(s, CloseLocked(c)).value.closed
    ensures c in s.killers ==>
      && Step(s, CloseKill(c)).Some?
      && c !in Step(s, CloseKill(c)).value.killers
      && (s.killers[c] in s.tasks ==> Settled(Step(s, CloseKill(c)).value, s.killers[c]))
    ensures s.consumer == Reading ==>
      Step(s, GiveUp) == Some(s.(consumer := Closing)) && (Step(s, Consume).Some? <==> s.queue != [])
    ensures s.consumer == Closing && c !in s.killers ==>
      Step(s, ConsumerCloses(c)).Some? && Step(s, ConsumerCloses(c)).value.consumer == Gone
      && Step(s, ConsumerCloses(c)).value.closed
    ensures s.consumer != Reading ==> Step(s, GiveUp).None? && Step(s, Consume).None?
  {
  }

  // ---- Every spawned task finishes or is told to die.

  /** From the `n`-th action on, a spawn that starts a task finds none noted. */
  ghost predicate GuardedFrom(actions: seq<Action>, n: nat) {
    forall i :: n <= i < |actions| && actions[i].Spawn? && Run(actions[..i]).Some? ==>
      Run(actions[..i]).value.closed || Run(actions[..i]).value.task.None?
  }

  ghost predicate Guarded(actions: seq<Action>) {
    GuardedFrom(actions, 0)
  }

  predicate Settled(s: State, t: nat) {
    t in s.tasks && (s.tasks[t].finished || s.tasks[t].told)
  }

  ghost predicate Executing(s: State, t: nat) {
    exists e :: e in s.executors && s.executors[e].task == t
  }

  ghost predicate HasKiller(s: State, t: nat) {
    exists c :: c in s.killers && s.killers[c] == t
  }

  ghost predicate KillsOwn(s: State, t: nat) {
    exists e :: e in s.executors && s.executors[e] == Killing(t)
  }

  /** A kill of this task is the very next thing a `close` or its own `execute` does. */
  ghost predicate AboutToDie(s: State, t: nat) {
    HasKiller(s, t) || KillsOwn(s, t)
  }

  /** A task noted is one some `execute` is still to clear, in every run. */
  ghost predicate NotedOk(s: State) {
    && (forall e :: e in s.executors ==> s.executors[e].task in s.tasks)
    && (s.task.Some? ==> exists e :: e in s.executors && s.executors[e].task == s.task.value && !s.executors[e].Killing?)
    && (s.killers != map[] ==> s.drained)
    && (s.drained ==> s.closed)
  }

  /** Steps of the queue leave tasks and callers alone. */
  lemma QuietStep(s: State, action: Action)
    requires IsQuiet(action) && Step(s, action).Some?
    ensures var s' := Step(s, action).value;
      && s' == s.(queue := s'.queue, closed := s'.closed, consumer := s'.consumer, accepted := s'.accepted,
                  seen := s'.seen, ended := s'.ended, done := s'.done)
      && (s.closed ==> s'.closed)
  {
    hide TaskStep;
    match action
    case Write(_) =>
    case Finish =>
    case Consume =>
    case GiveUp =>
  }

  lemma NotedKept(s: State, action: Action)
    requires NotedOk(s) && Step(s, action).Some?
    ensures NotedOk(Step(s, action).value)
  {
    var s' := Step(s, action).value;
    if IsQuiet(action) {
      QuietStep(s, action);
      hide Step;
    } else if action.Spawn? {
      if !s.closed {
        assert s'.executors[action.caller].task == s'.task.value;
      } else {
        assert s' == s;
      }
      hide Step;
    } else if s'.task.Some? {
      NotedGoesOn(s, action);
    }
  }

  lemma NotedGoesOn(s: State, action: Action)
    requires NotedOk(s) && Step(s, action).Some? && !IsQuiet(action) && !action.Spawn?
    requires Step(s, action).value.task.Some?
    ensures var s' := Step(s, action).value;
      exists e :: e in s'.executors && s'.executors[e].task == s'.task.value && !s'.executors[e].Killing?
  {
    var s' := Step(s, action).value;
    var e :| e in s.executors && s.executors[e].task == s.task.value && !s.executors[e].Killing?;
    assert e in s'.executors && s'.executors[e].task == s'.task.value && !s'.executors[e].Killing?;
  }

  lemma {:induction false} RunKeepsNoted(actions: seq<Action>)
    requires Run(actions).Some?
    ensures NotedOk(Run(actions).value)
  {
    hide Step;
    if actions != [] {
      RunKeepsNoted(actions[..|actions| - 1]);
      NotedKept(Run(actions[..|actions| - 1]).value, actions[|actions| - 1]);
    }
  }

  /** In a guarded run at most one `execute` has a task it is still to clear, and it is the
      one noted; every task is settled, or some `execute` or `close` will see to it. */
  ghost predicate TasksOk(s: State) {
    && NotedOk(s)
    && (forall e :: e in s.executors && !s.executors[e].Killing? ==> s.task == Some(s.executors[e].task))
    && (forall e, f :: e in s.executors && f in s.executors && !s.executors[e].Killing? && !s.executors[f].Killing? ==> e == f)
    && (forall t :: t in s.tasks ==> Settled(s, t) || Executing(s, t))
    && (s.drained ==> forall t :: t in s.tasks ==> Settled(s, t) || AboutToDie(s, t))
  }

  lemma SpawnKeepsTasks(s: State, e: nat, t: nat)
    requires TasksOk(s) && Step(s, Spawn(e, t)).Some? && (s.closed || s.task.None?)
    ensures TasksOk(Step(s, Spawn(e, t)).value)
  {
    hide AboutToDie;
    var s' := Step(s, Spawn(e, t)).value;
    NotedKept(s, Spawn(e, t));
    if !s.closed {
      forall u | u in s'.tasks
        ensures Settled(s', u) || Executing(s', u)
      {
        if u == t {
          assert s'.executors[e].task == t;
        } else if !Settled(s, u) {
          var f :| f in s.executors && s.executors[f].task == u;
          assert s'.executors[f].task == u;
        }
      }
    }
  }

  lemma ExecutorStepKeepsTasks(s: State, action: Action)
    requires TasksOk(s) && Step(s, action).Some?
    requires action.GetReturns? || action.ClearTask? || action.KillOwn?
    ensures TasksOk(Step(s, action).value)
  {
    hide NotedOk;
    var s' := Step(s, action).value;
    var e := action.caller;
    NotedKept(s, action);
    forall t | t in s'.tasks
      ensures Settled(s', t) || Executing(s', t)
      ensures s.drained ==> Settled(s', t) || AboutToDie(s', t)
    {
      if !Settled(s', t) {
        ExecutorStepKeepsOne(s, action, t);
      }
    }
  }

  lemma ExecutorStepKeepsOne(s: State, action: Action, t: nat)
    requires Step(s, action).Some? && (action.GetReturns? || action.ClearTask? || action.KillOwn?)
    requires t in s.tasks && !Settled(Step(s, action).value, t)
    requires Settled(s, t) || Executing(s, t)
    ensures Executing(Step(s, action).value, t)
    ensures Settled(s, t) || AboutToDie(s, t) ==> AboutToDie(Step(s, action).value, t)
  {
    var s' := Step(s, action).value;
    var f :| f in s.executors && s.executors[f].task == t;
    assert f in s'.executors && s'.executors[f].task == t;
    if HasKiller(s, t) {
      assert HasKiller(s', t);
    } else if KillsOwn(s, t) {
      var g :| g in s.executors && s.executors[g] == Killing(t);
      assert g in s'.executors && s'.executors[g] == Killing(t);
    }
  }

  lemma CloseReaches(s: State, c: nat, t: nat)
    requires TasksOk(s) && c !in s.killers && t in s.tasks && !Settled(s, t)
    ensures AboutToDie(Close(s, c), t)
  {
    var s' := Close(s, c);
    var e :| e in s.executors && s.executors[e].task == t;
    if s.executors[e].Killing? {
      assert s'.executors[e] == Killing(t);
    } else {
      assert s'.killers[c] == t;
    }
  }

  lemma CloseKeepsTasks(s: State, c: nat, s': State)
    requires TasksOk(s) && c !in s.killers
    requires var s1 := Close(s, c);
      && s'.task == s1.task && s'.tasks == s1.tasks && s'.executors == s1.executors && s'.killers == s1.killers
      && s'.closed && s'.drained
    ensures TasksOk(s')
  {
    forall t | t in s'.tasks
      ensures Settled(s', t) || Executing(s', t)
      ensures Settled(s', t) || AboutToDie(s', t)
    {
      if !Settled(s, t) {
        CloseReaches(s, c, t);
        assert Executing(s, t);
        assert HasKiller(Close(s, c), t) ==> HasKiller(s', t);
        assert KillsOwn(Close(s, c), t) ==> KillsOwn(s', t);
      }
    }
  }

  /** What finishes or tells tasks, and may take a killer away that has told its own. */
  lemma TellKeepsTasks(s: State, s': State)
    requires TasksOk(s)
    requires s'.task == s.task && s'.executors == s.executors && s'.tasks.Keys == s.tasks.Keys
    requires forall t :: t in s.tasks && Settled(s, t) ==> Settled(s', t)
    requires forall c :: c in s'.killers ==> c in s.killers && s'.killers[c] == s.killers[c]
    requires forall c :: c in s.killers && s.killers[c] in s.tasks && !Settled(s', s.killers[c]) ==> c in s'.killers
    requires s'.drained == s.drained && s'.closed == s.closed
    ensures TasksOk(s')
  {
    hide Settled;
    assert s'.killers != map[] ==> s.killers != map[] by {
      if c :| c in s'.killers {
        assert c in s.killers;
      }
    }
    forall t | t in s'.tasks
      ensures Settled(s', t) || Executing(s', t)
      ensures s.drained ==> Settled(s', t) || AboutToDie(s', t)
    {
      if !Settled(s', t) {
        assert Executing(s, t);
        if s.drained {
          if HasKiller(s, t) {
            var c :| c in s.killers && s.killers[c] == t;
            assert c in s'.killers;
          } else {
            assert KillsOwn(s, t) && KillsOwn(s', t);
          }
        }
      }
    }
  }

  lemma KillKeepsTasks(s: State, action: Action)
    requires TasksOk(s) && Step(s, action).Some? && (action.TaskFinishes? || action.CloseKill?)
    ensures TasksOk(Step(s, action).value)
  {
    hide TasksOk;
    TellKeepsTasks(s, Step(s, action).value);
  }

  lemma QuietKeepsTasks(s: State, action: Action)
    requires TasksOk(s) && IsQuiet(action) && Step(s, action).Some?
    ensures TasksOk(Step(s, action).value)
  {
    hide Step, IsQuiet;
    QuietStep(s, action);
    var s' := Step(s, action).value;
    forall t | t in s'.tasks
      ensures Settled(s', t) || Executing(s', t)
      ensures s.drained ==> Settled(s', t) || AboutToDie(s', t)
    {
      assert Executing(s, t) ==> Executing(s', t);
      assert HasKiller(s, t) ==> HasKiller(s', t);
      assert KillsOwn(s, t) ==> KillsOwn(s', t);
    }
  }

  lemma ClosingKeepsTasks(s: State, action: Action)
    requires TasksOk(s) && Step(s, action).Some? && (action.CloseLocked? || action.ConsumerCloses?)
    ensures TasksOk(Step(s, action).value)
  {
    hide TasksOk;
    CloseKeepsTasks(s, action.caller, Step(s, action).value);
  }

  lemma GuardedBefore(actions: seq<Action>, n: nat, k: nat)
    requires GuardedFrom(actions, n) && k <= |actions|
    ensures GuardedFrom(actions[..k], n)
  {
    forall i | n <= i < k && actions[..k][i].Spawn? && Run(actions[..k][..i]).Some?
      ensures Run(actions[..k][..i]).value.closed || Run(actions[..k][..i]).value.task.None?
    {
      assert actions[..k][..i] == actions[..i];
    }
  }

  lemma {:induction false} RunKeepsTasks(actions: seq<Action>)
    requires Run(actions).Some? && Guarded(actions)
    ensures TasksOk(Run(actions).value)
  {
    if actions == [] {
      hide Settled, AboutToDie, Executing;
      assert TasksOk(INITIAL);
    } else {
      var n := |actions| - 1;
      GuardedBefore(actions, 0, n);
      RunKeepsTasks(actions[..n]);
      hide Step, TasksOk;
      var s, action := Run(actions[..n]).value, actions[n];
      if action.Spawn? {
        SpawnKeepsTasks(s, action.caller, action.task);
      } else if action.GetReturns? || action.ClearTask? || action.KillOwn? {
        ExecutorStepKeepsTasks(s, action);
      } else if action.CloseLocked? || action.ConsumerCloses? {
        ClosingKeepsTasks(s, action);
      } else if action.TaskFinishes? || action.CloseKill? {
        KillKeepsTasks(s, action);
      } else {
        QuietKeepsTasks(s, action);
      }
    }
  }

  /** In a guarded run, every task spawned before a `close` is finished, told to die, or about
      to be; once those calls have returned it is finished or told. */
  lemma CloseSettlesEveryTask(actions: seq<Action>, t: nat)
    requires Run(actions).Some? && Guarded(actions)
    requires Run(actions).value.drained && t in Run(actions).value.tasks
    ensures var s := Run(actions).value;
      && (Settled(s, t) || AboutToDie(s, t))
      && (s.killers == map[] && s.executors == map[] ==> Settled(s, t))
  {
    hide Run, NotedOk;
    RunKeepsTasks(actions);
  }

  // ---- The guard is exact.

  /** A `close` has gone through, and some task is neither settled nor about to be. */
  ghost predicate Loses(s: State) {
    s.drained && exists t :: t in s.tasks && !Settled(s, t) && !AboutToDie(s, t)
  }

  /** The rest of a run in which the `execute` of the task noted first clears what a later
      one noted, and then a `close` comes. */
  function ClearThenClose(s: State, e0: nat): seq<Action>
    requires e0 in s.executors
  {
    (if s.executors[e0].Waiting? then [GetReturns(e0)] else []) + [ClearTask(e0)] + [CloseLocked(0)]
  }

  /** What those steps lead to, after the spawn. */
  lemma LosingSteps(s: State, e0: nat, e: nat, t: nat) returns (s1: State, s2: State, s3: State, s4: State)
    requires NotedOk(s) && !s.closed && e0 in s.executors && !s.executors[e0].Killing?
    requires e !in s.executors && t !in s.tasks
    ensures Step(s, Spawn(e, t)) == Some(s1)
    ensures if s.executors[e0].Waiting? then Step(s1, GetReturns(e0)) == Some(s2) else s2 == s1
    ensures Step(s2, ClearTask(e0)) == Some(s3) && Step(s3, CloseLocked(0)) == Some(s4)
    ensures s4.drained && s4.killers == map[] && t in s4.tasks && s4.tasks[t] == Task(false, false)
    ensures e in s4.executors && s4.executors[e] == Waiting(t)
    ensures forall f :: f in s4.executors && f != e ==> s4.executors[f].task in s.tasks
  {
    hide QueueStep, Kill;
    s1 := Step(s, Spawn(e, t)).value;
    s2 := if s.executors[e0].Waiting? then Step(s1, GetReturns(e0)).value else s1;
    s3 := Step(s2, ClearTask(e0)).value;
    s4 := Step(s3, CloseLocked(0)).value;
  }

  /** From any open state of any run in which a task is noted, one more spawn can be followed by
      steps, none of them a spawn, that lose the new task. */
  lemma SecondSpawnCanLose(actions: seq<Action>, e: nat, t: nat) returns (more: seq<Action>)
    requires Run(actions).Some?
    requires var s := Run(actions).value; !s.closed && s.task.Some? && e !in s.executors && t !in s.tasks
    ensures forall i :: 0 <= i < |more| ==> !more[i].Spawn?
    ensures Run(actions + [Spawn(e, t)] + more).Some? && Loses(Run(actions + [Spawn(e, t)] + more).value)
  {
    RunKeepsNoted(actions);
    hide Run, Step;
    var s := Run(actions).value;
    var e0 :| e0 in s.executors && s.executors[e0].task == s.task.value && !s.executors[e0].Killing?;
    more := ClearThenClose(s, e0);
    var s1, s2, s3, s4 := LosingSteps(s, e0, e, t);
    var before := actions + [Spawn(e, t)];
    RunSnoc(actions, Spawn(e, t));
    RunSnoc(before, GetReturns(e0));
    var waited := if s.executors[e0].Waiting? then before + [GetReturns(e0)] else before;
    RunSnoc(waited, ClearTask(e0));
    RunSnoc(waited + [ClearTask(e0)], CloseLocked(0));
    assert before + more == waited + [ClearTask(e0)] + [CloseLocked(0)];
    assert !Settled(s4, t) && !HasKiller(s4, t) && !KillsOwn(s4, t);
  }

  /** So the guard is exactly what is needed at each spawn: a spawn that starts a task, in a
      run guarded so far, finds none noted if and only if no continuation in which all later
      spawns are guarded loses a task. */
  lemma GuardIsExact(actions: seq<Action>, e: nat, t: nat)
    requires Run(actions).Some? && Guarded(actions)
    requires var s := Run(actions).value; !s.closed && e !in s.executors && t !in s.tasks
    ensures Run(actions).value.task.None? <==>
      forall more | GuardedFrom(actions + [Spawn(e, t)] + more, |actions| + 1)
                    && Run(actions + [Spawn(e, t)] + more).Some? ::
        !Loses(Run(actions + [Spawn(e, t)] + more).value)
  {
    hide Run, Step;
    if Run(actions).value.task.None? {
      forall more | GuardedFrom(actions + [Spawn(e, t)] + more, |actions| + 1)
                    && Run(actions + [Spawn(e, t)] + more).Some?
        ensures !Loses(Run(actions + [Spawn(e, t)] + more).value)
      {
        GuardedJoins(actions, e, t, more);
        RunKeepsTasks(actions + [Spawn(e, t)] + more);
      }
    } else {
      var more := SecondSpawnCanLose(actions, e, t);
      NoSpawnIsGuarded(actions + [Spawn(e, t)], more);
    }
  }

  lemma GuardedJoins(actions: seq<Action>, e: nat, t: nat, more: seq<Action>)
    requires Run(actions).Some? && Guarded(actions) && Run(actions).value.task.None?
    requires GuardedFrom(actions + [Spawn(e, t)] + more, |actions| + 1)
    ensures Guarded(actions + [Spawn(e, t)] + more)
  {
    hide Run;
    var all := actions + [Spawn(e, t)] + more;
    forall i | 0 <= i < |all| && all[i].Spawn? && Run(all[..i]).Some?
      ensures Run(all[..i]).value.closed || Run(all[..i]).value.task.None?
    {
      if i < |actions| {
        assert all[..i] == actions[..i] && all[i] == actions[i];
      } else if i == |actions| {
        assert all[..i] == actions;
      }
    }
  }

  lemma NoSpawnIsGuarded(before: seq<Action>, more: seq<Action>)
    requires forall i :: 0 <= i < |more| ==> !more[i].Spawn?
    ensures GuardedFrom(before + more, |before|)
  {
    hide Run;
    forall i | |before| <= i < |before + more|
      ensures !(before + more)[i].Spawn?
    {
      assert (before + more)[i] == more[i - |before|];
    }
  }

  lemma RunSnoc(actions: seq<Action>, action: Action)
    ensures Run(actions + [action]) == match Run(actions) case None => None case Some(s) => Step(s, action)
  {
    hide Step;
    assert (actions + [action])[..|actions|] == actions;
  }

  // ---- The writer itself.

  /** The locked parts of the writer's methods, as an object; the steps above do to the shared
      state what these do. */
  class ResponseWriter {
    var q: seq<Option<string>>
    var closed: bool
    var running: Option<nat>

    constructor ()
      ensures q == [] && !closed && running == None && Shows(INITIAL)
    {
      q := [];
      closed := false;
      running := None;
    }

    ghost predicate Shows(s: State)
      reads this
    {
      q == s.queue && closed == s.closed && running == s.task
    }

    /** The first half of `execute`: a closed writer starts nothing. */
    method Start(t: nat) returns (started: bool)
      modifies this`running
      ensures started <==> !closed
      ensures running == if started then Some(t) else old(running)
      ensures forall s: State, e: nat | old(Shows(s)) && Step(s, Spawn(e, t)).Some? :: Shows(Step(s, Spawn(e, t)).value)
    {
      if closed {
        return false;
      }
      running := Some(t);
      return true;
    }

    method Put(data: string)
      modifies this`q
      ensures q == if closed then old(q) else old(q) + [Some(data)]
      ensures forall s: State | old(Shows(s)) :: Shows(Step(s, Write(data)).value)
    {
      if !closed {
        q := q + [Some(data)];
      }
    }

    method Done()
      modifies this`q, this`closed
      ensures closed && q == if old(closed) then old(q) else old(q) + [None]
      ensures forall s: State | old(Shows(s)) :: Shows(Step(s, Finish).value)
    {
      if !closed {
        closed := true;
        q := q + [None];
      }
    }

    /** The locked part of `close`, with its drain loop; the task found is told to die
        afterwards. */
    method CloseLocked() returns (toKill: Option<nat>)
      modifies this`q, this`closed
      ensures closed && q == [] && toKill == running
      ensures forall s: State, c: nat | old(Shows(s)) && c !in s.killers ::
                var s' := Step(s, Action.CloseLocked(c)).value;
                Shows(s') && (toKill.Some? ==> c in s'.killers && s'.killers[c] == toKill.value)
    {
      closed := true;
      toKill := running;
      while q != []
        invariant closed && running == old(running)
        decreases |q|
      {
        q := q[1..];
      }
    }
  }
}
