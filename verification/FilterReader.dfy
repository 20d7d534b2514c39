// The queue between the event loop and one reader, with closes racing writes and reads.
module FilterReader {
  import opened Text

  /** Where a `close` is: past its check, past setting the flag, past the callback. */
  datatype Stage = Checked | Flagged | Called

  /** Where the generator of `read` is. */
  datatype ReaderPc = AtClosedCheck | AtEmptyCheck | AtGet | Yielded | Ended

  /** The queue and flag, the calls in progress, and the history kept for the proofs: the
      entries taken, the messages written before the flag was set, and those yielded. */
  datatype State<T> = State(
    queue: seq<Option<T>>,
    closed: bool,
    writers: map<nat, T>,
    closers: map<nat, Stage>,
    reader: ReaderPc,
    taken: seq<Option<T>>,
    early: seq<T>,
    yielded: seq<T>)

  function Initial<T>(): State<T> {
    State([], false, map[], map[], AtClosedCheck, [], [], [])
  }

  datatype Action<T> =
    | WriteCheck(caller: nat, data: T)
    | WritePut(caller: nat)
    | CloseCheck(caller: nat)
    | CloseFlag(caller: nat)
    | CloseCall(caller: nat)
    | ClosePut(caller: nat)
    | Read
    | Timeout

  /** One step of the generator; a `get` on an empty queue blocks. */
  function ReadStep<T>(s: State<T>): Option<State<T>> {
    match s.reader
    case AtClosedCheck => Some(s.(reader := if s.closed then AtEmptyCheck else AtGet))
    case AtEmptyCheck => Some(s.(reader := if s.queue == [] then Ended else AtGet))
    case AtGet =>
      if s.queue == [] then None
      else
        var e := s.queue[0];
        var s := s.(queue := s.queue[1..], taken := s.taken + [e]);
        if e.None? then Some(s.(reader := Ended))
        else Some(s.(reader := Yielded, yielded := s.yielded + [e.value]))
    case Yielded => Some(s.(reader := AtClosedCheck))
    case Ended => None
  }

  function Step<T>(s: State<T>, action: Action<T>): Option<State<T>> {
    match action
    case WriteCheck(w, data) =>
      if w in s.writers then None else if s.closed then Some(s) else Some(s.(writers := s.writers[w := data]))
    case WritePut(w) =>
      if w !in s.writers then None
      else
        var data := s.writers[w];
        Some(s.(queue := s.queue + [Some(data)], writers := s.writers - {w},
                early := if s.closed then s.early else s.early + [data]))
    case CloseCheck(c) =>
      if c in s.closers then None else if s.closed then Some(s) else Some(s.(closers := s.closers[c := Checked]))
    case CloseFlag(c) =>
      if c in s.closers && s.closers[c] == Checked then
        Some(s.(closed := true, closers := s.closers[c := Flagged]))
      else None
    case CloseCall(c) =>
      if c in s.closers && s.closers[c] == Flagged then Some(s.(closers := s.closers[c := Called])) else None
    case ClosePut(c) =>
      if c in s.closers && s.closers[c] == Called then
        Some(s.(queue := s.queue + [None], closers := s.closers - {c}))
      else None
    case Read => ReadStep(s)
    case Timeout =>
      // `queue.Empty`: the generator yields a placeholder and goes round again.
      if s.reader == AtGet && s.queue == [] then Some(s.(reader := AtClosedCheck)) else None
  }

  function Run<T>(actions: seq<Action<T>>): Option<State<T>> {
    if actions == [] then Some(Initial())
    else match Run(actions[..|actions| - 1])
      case None => None
      case Some(s) => Step(s, actions[|actions| - 1])
  }

  /** The messages among queue entries. */
  function Messages<T>(entries: seq<Option<T>>): seq<T> {
    if entries == [] then []
    else
      var last := entries[|entries| - 1];
      Messages(entries[..|entries| - 1]) + if last.Some? then [last.value] else []
  }

  lemma {:induction false} MessagesAppend<T>(a: seq<Option<T>>, b: seq<Option<T>>)
    ensures Messages(a + b) == Messages(a) + Messages(b)
  {
    if b == [] {
      assert a + b == a;
    } else {
      assert (a + b)[..|a + b| - 1] == a + b[..|b| - 1];
      MessagesAppend(a, b[..|b| - 1]);
    }
  }

  function Log<T>(s: State<T>): seq<Option<T>> {
    s.taken + s.queue
  }

  /** Every entry before the `n`-th is a message. */
  predicate MessagesOnly<T>(entries: seq<Option<T>>, n: nat) {
    n <= |entries| && forall i :: 0 <= i < n ==> entries[i].Some?
  }

  ghost predicate Inv<T>(s: State<T>) {
    && s.yielded == Messages(s.taken)
    && MessagesOnly(Log(s), |s.early|)
    && Messages(Log(s)[..|s.early|]) == s.early
    && (!s.closed ==> |s.early| == |Log(s)| && forall c :: c in s.closers ==> s.closers[c] == Checked)
    && (s.reader == AtEmptyCheck ==> s.closed)
    && (s.reader != Ended ==> MessagesOnly(s.taken, |s.taken|))
    && (s.reader == Ended ==> s.closed && |s.taken| >= |s.early|)
    && (s.reader == AtEmptyCheck || s.closed ==> None in s.queue || s.reader == Ended || Owing(s))
  }

  /** Some `close` has yet to put its sentinel. */
  ghost predicate Owing<T>(s: State<T>) {
    exists c :: c in s.closers && s.closers[c] in {Flagged, Called}
  }

  lemma AppendKeepsFront<T>(log: seq<Option<T>>, e: Option<T>, n: nat)
    requires n <= |log|
    ensures (log + [e])[..n] == log[..n]
    ensures MessagesOnly(log, n) ==> MessagesOnly(log + [e], n)
  {
  }

  lemma PutKeepsInv<T>(s: State<T>, e: Option<T>, s': State<T>)
    requires Inv(s)
    requires s'.queue == s.queue + [e] && s'.taken == s.taken && s'.reader == s.reader && s'.closed == s.closed
    requires s'.yielded == s.yielded
    requires e.None? ==> s.closed && s'.early == s.early
    requires e.Some? ==> s'.early == (if s.closed then s.early else s.early + [e.value]) && s'.closers == s.closers
    requires !s.closed ==> s'.closers == s.closers
    ensures Inv(s')
  {
    hide Messages;
    assert Log(s') == Log(s) + [e];
    AppendKeepsFront(Log(s), e, |s.early|);
    if e.Some? && !s.closed {
      assert Log(s)[..|s.early|] == Log(s) && Log(s')[..|s'.early|] == Log(s');
      MessagesAppend(Log(s), [e]);
      MessagesOne(e);
    }
    if None in s.queue {
      var i :| 0 <= i < |s.queue| && s.queue[i] == None;
      assert s'.queue[i] == None;
    }
    assert s'.queue[|s.queue|] == e;
  }

  lemma ReadKeepsInv<T>(s: State<T>)
    requires Inv(s) && ReadStep(s).Some?
    ensures Inv(ReadStep(s).value)
  {
    if s.reader == AtGet {
      GetKeepsInv(s);
    }
  }

  lemma GetKeepsInv<T>(s: State<T>)
    requires Inv(s) && s.reader == AtGet && s.queue != []
    ensures Inv(ReadStep(s).value)
  {
    hide Messages;
    var s', e := ReadStep(s).value, s.queue[0];
    assert Log(s') == Log(s);
    MessagesAppend(s.taken, [e]);
    MessagesOne(e);
    if e.None? {
      assert Log(s)[|s.taken|] == None;
    } else if None in s.queue {
      var i :| 0 <= i < |s.queue| && s.queue[i] == None;
      assert s'.queue[i - 1] == None;
    }
    if Owing(s) {
      OwingSame(s, s');
    }
  }

  lemma OwingSame<T>(s: State<T>, s': State<T>)
    requires s.closers == s'.closers && Owing(s)
    ensures Owing(s')
  {
    var c :| c in s.closers && s.closers[c] in {Flagged, Called};
    assert c in s'.closers && s'.closers[c] in {Flagged, Called};
  }

  lemma MessagesOne<T>(e: Option<T>)
    ensures Messages([e]) == if e.Some? then [e.value] else []
  {
    assert [e][..0] == [];
  }

  lemma StepKeepsInv<T>(s: State<T>, action: Action<T>)
    requires Inv(s) && Step(s, action).Some?
    ensures Inv(Step(s, action).value)
  {
    var s' := Step(s, action).value;
    match action
    case WritePut(w) => PutKeepsInv(s, Some(s.writers[w]), s');
    case ClosePut(c) => PutKeepsInv(s, None, s');
    case Read => ReadKeepsInv(s);
    case CloseFlag(c) => assert s'.closers[c] == Flagged;
    case CloseCall(c) => assert s'.closers[c] == Called;
    case CloseCheck(c) =>
      if Owing(s) {
        var d :| d in s.closers && s.closers[d] in {Flagged, Called};
        assert s'.closers[d] in {Flagged, Called};
      }
    case _ =>
  }

  lemma {:induction false} RunKeepsInv<T>(actions: seq<Action<T>>)
    requires Run(actions).Some?
    ensures Inv(Run(actions).value)
  {
    if actions != [] {
      RunKeepsInv(actions[..|actions| - 1]);
      StepKeepsInv(Run(actions[..|actions| - 1]).value, actions[|actions| - 1]);
    }
  }

  // ---- Against the calls made.

  /** Some `close` has set the flag. */
  predicate Closed<T>(actions: seq<Action<T>>) {
    actions != [] && (Closed(actions[..|actions| - 1]) || actions[|actions| - 1].CloseFlag?)
  }

  /** The message a call of `write` is about to put: it found the reader open. */
  function Pending<T>(actions: seq<Action<T>>, w: nat): Option<T> {
    if actions == [] then None
    else
      var before := actions[..|actions| - 1];
      match actions[|actions| - 1]
      case WriteCheck(v, data) => if v == w && !Closed(before) then Some(data) else Pending(before, w)
      case WritePut(v) => if v == w then None else Pending(before, w)
      case _ => Pending(before, w)
  }

  /** The messages written, in the order in which their writes took effect. */
  function Written<T>(actions: seq<Action<T>>): seq<T> {
    if actions == [] then []
    else
      var before, last := actions[..|actions| - 1], actions[|actions| - 1];
      Written(before)
      + if last.WritePut? && Pending(before, last.caller).Some? then [Pending(before, last.caller).value] else []
  }

  ghost predicate WritersOk<T>(s: State<T>, actions: seq<Action<T>>) {
    && (s.closed <==> Closed(actions))
    && (forall w :: w in s.writers <==> Pending(actions, w).Some?)
    && (forall w :: w in s.writers ==> Pending(actions, w) == Some(s.writers[w]))
  }

  lemma {:induction false} RunKeepsWriters<T>(actions: seq<Action<T>>)
    requires Run(actions).Some?
    ensures WritersOk(Run(actions).value, actions)
  {
    if actions != [] {
      RunKeepsWriters(actions[..|actions| - 1]);
      hide Run, ReadStep;
      StepKeepsWriters(Run(actions[..|actions| - 1]).value, actions);
      assert Run(actions) == Step(Run(actions[..|actions| - 1]).value, actions[|actions| - 1]) by { RunOne(actions); }
    }
  }

  lemma RunOne<T>(actions: seq<Action<T>>)
    requires actions != [] && Run(actions).Some?
    ensures Run(actions[..|actions| - 1]).Some?
    ensures Run(actions) == Step(Run(actions[..|actions| - 1]).value, actions[|actions| - 1])
  {
  }

  lemma StepKeepsWriters<T>(s: State<T>, actions: seq<Action<T>>)
    requires actions != [] && WritersOk(s, actions[..|actions| - 1]) && Step(s, actions[|actions| - 1]).Some?
    ensures WritersOk(Step(s, actions[|actions| - 1]).value, actions)
  {
  }

  /** What has been put is what was written, and what was written to the open reader is there
      for good. */
  ghost predicate WrittenOk<T>(s: State<T>, actions: seq<Action<T>>) {
    && Messages(Log(s)) == Written(actions)
    && (!s.closed ==> s.early == Written(actions))
    && (forall k :: 0 <= k <= |actions| && !Closed(actions[..k]) ==> Written(actions[..k]) <= s.early)
  }

  lemma {:induction false} RunKeepsWritten<T>(actions: seq<Action<T>>)
    requires Run(actions).Some?
    ensures WrittenOk(Run(actions).value, actions)
  {
    if actions == [] {
      assert forall k :: 0 <= k <= |actions| ==> actions[..k] == [];
    } else {
      RunKeepsWritten(actions[..|actions| - 1]);
      RunKeepsWriters(actions[..|actions| - 1]);
      RunKeepsWriters(actions);
      RunOne(actions);
      hide Run, WrittenOk;
      StepKeepsWritten(Run(actions[..|actions| - 1]).value, actions);
    }
  }

  lemma StepKeepsWritten<T>(s: State<T>, actions: seq<Action<T>>)
    requires actions != [] && WrittenOk(s, actions[..|actions| - 1]) && WritersOk(s, actions[..|actions| - 1])
    requires Step(s, actions[|actions| - 1]).Some? && WritersOk(Step(s, actions[|actions| - 1]).value, actions)
    ensures WrittenOk(Step(s, actions[|actions| - 1]).value, actions)
  {
    var n, s' := |actions| - 1, Step(s, actions[|actions| - 1]).value;
    StepPuts(s, actions[n]);
    WrittenOne(s, actions);
    hide Messages, Written, Closed, WritersOk, Step, Log;
    MessagesAppend(Log(s), Log(s')[|Log(s)|..]);
    assert s'.closed <==> Closed(actions) by { ClosedIs(s', actions); }
    EarlyKept(s, s', actions);
  }

  lemma EarlyKept<T>(s: State<T>, s': State<T>, actions: seq<Action<T>>)
    requires actions != [] && s.early <= s'.early && (!s'.closed ==> s'.early == Written(actions))
    requires s'.closed <==> Closed(actions)
    requires var before := actions[..|actions| - 1];
      forall k :: 0 <= k <= |before| && !Closed(before[..k]) ==> Written(before[..k]) <= s.early
    ensures forall k :: 0 <= k <= |actions| && !Closed(actions[..k]) ==> Written(actions[..k]) <= s'.early
  {
    hide Written, Closed;
    var n := |actions| - 1;
    forall k | 0 <= k <= |actions| && !Closed(actions[..k])
      ensures Written(actions[..k]) <= s'.early
    {
      if k <= n {
        assert actions[..k] == actions[..n][..k];
      } else {
        assert actions[..k] == actions;
      }
    }
  }

  lemma ClosedIs<T>(s: State<T>, actions: seq<Action<T>>)
    requires WritersOk(s, actions)
    ensures s.closed <==> Closed(actions)
  {
  }

  lemma WrittenOne<T>(s: State<T>, actions: seq<Action<T>>)
    requires actions != [] && WritersOk(s, actions[..|actions| - 1]) && Step(s, actions[|actions| - 1]).Some?
    ensures var last := actions[|actions| - 1];
      Written(actions) == Written(actions[..|actions| - 1]) + if last.WritePut? then [s.writers[last.caller]] else []
  {
  }

  /** What a step puts behind everything put so far. */
  lemma StepPuts<T>(s: State<T>, action: Action<T>)
    requires Step(s, action).Some?
    ensures var s' := Step(s, action).value;
      var put := if action.WritePut? then [Some(s.writers[action.caller])] else if action.ClosePut? then [None] else [];
      && Log(s') == Log(s) + put && Messages(put) == (if action.WritePut? then [s.writers[action.caller]] else [])
      && Log(s')[|Log(s)|..] == put
      && (s.closed ==> s'.closed && s'.early == s.early)
      && (!s.closed ==> s'.early == s.early + Messages(put))
  {
    hide Messages;
    MessagesNone<T>();
    match action
    case WritePut(w) =>
      MessagesOne(Some(s.writers[w]));
      assert s.taken + (s.queue + [Some(s.writers[w])]) == s.taken + s.queue + [Some(s.writers[w])];
    case ClosePut(_) =>
      MessagesOne<T>(None);
      assert s.taken + (s.queue + [None]) == s.taken + s.queue + [None];
    case Read => ReadPutsNothing(s);
    case _ =>
  }

  lemma MessagesNone<T>()
    ensures Messages<T>([]) == []
  {
  }

  lemma ReadPutsNothing<T>(s: State<T>)
    requires ReadStep(s).Some?
    ensures var s' := ReadStep(s).value;
      Log(s') == Log(s) == Log(s) + [] && s'.closed == s.closed && s'.early == s.early == s.early + []
  {
    if s.reader == AtGet {
      assert s.taken + [s.queue[0]] + s.queue[1..] == s.taken + s.queue;
    }
  }

  /** In every run the reader yields the messages written, each once, in the order their
      writes took effect, and nothing after a sentinel it has met. When it ends it has yielded
      every message whose write took effect before the reader was closed; until then whatever
      it has not yielded is waiting in its queue. */
  lemma NothingLostBeforeClose<T>(actions: seq<Action<T>>)
    requires Run(actions).Some?
    ensures var s := Run(actions).value;
      && s.yielded <= Written(actions)
      && (s.reader != Ended ==> None !in s.taken && s.yielded + Messages(s.queue) == Written(actions))
      && (s.reader == Ended ==>
            && (s.taken == [] || None !in s.taken[..|s.taken| - 1])
            && forall k :: 0 <= k <= |actions| && !Closed(actions[..k]) ==> Written(actions[..k]) <= s.yielded)
  {
    RunKeepsInv(actions);
    RunKeepsWritten(actions);
    var s := Run(actions).value;
    MessagesAppend(s.taken, s.queue);
    if s.reader == Ended {
      assert Log(s)[..|s.early|] == s.taken[..|s.early|];
      assert s.taken[..|s.early|] + s.taken[|s.early|..] == s.taken;
      MessagesAppend(s.taken[..|s.early|], s.taken[|s.early|..]);
      EndedOnce(actions);
      assert s.early <= s.yielded;
    }
  }

  /** The sentinel, if the reader met one, is the last entry it took. */
  lemma {:induction false} EndedOnce<T>(actions: seq<Action<T>>)
    requires Run(actions).Some?
    ensures var taken := Run(actions).value.taken; taken == [] || None !in taken[..|taken| - 1]
  {
    if actions != [] {
      hide Step;
      var before := Run(actions[..|actions| - 1]).value;
      RunKeepsInv(actions[..|actions| - 1]);
      EndedOnce(actions[..|actions| - 1]);
      TakesAtMostOne(before, actions[|actions| - 1]);
      var taken := Run(actions).value.taken;
      assert taken == before.taken || taken[..|taken| - 1] == before.taken;
    }
  }

  lemma TakesAtMostOne<T>(s: State<T>, action: Action<T>)
    requires Step(s, action).Some?
    ensures var s' := Step(s, action).value;
      s'.taken == s.taken || (s.reader != Ended && s'.taken != [] && s'.taken[..|s'.taken| - 1] == s.taken)
  {
  }

  /** One round of the generator with nothing else happening: the message at the head is
      yielded, the sentinel ends it, and an empty queue ends it too once the flag is set, but
      otherwise blocks until the timeout. */
  lemma RoundAlone<T>(s: State<T>)
    requires s.reader == AtClosedCheck
    ensures ReadStep(s).Some?
    ensures var s1 := ReadStep(s).value;
      if s.queue == [] then
        if s.closed then ReadStep(s1) == Some(s.(reader := Ended)) else ReadStep(s1).None? && Step(s1, Timeout) == Some(s)
      else
        && (s.closed ==> ReadStep(s1).Some?)
        && var s2 := if s.closed then ReadStep(s1).value else s1;
           var taken := s.(queue := s.queue[1..], taken := s.taken + [s.queue[0]]);
           match s.queue[0]
           case None => ReadStep(s2) == Some(taken.(reader := Ended))
           case Some(data) =>
             && ReadStep(s2).Some?
             && ReadStep(ReadStep(s2).value) == Some(taken.(yielded := s.yielded + [data]))
  {
  }

  /** No call of `write` or `close` ever blocks: it can always begin, and each step brings it
      on to its end. A call that finds the reader closed does nothing, and nothing is done
      without a call. */
  lemma CallsNeverBlock<T>(s: State<T>, c: nat, data: T)
    ensures c !in s.writers ==>
      Step(s, WriteCheck(c, data)) == Some(if s.closed then s else s.(writers := s.writers[c := data]))
    ensures c in s.writers ==> Step(s, WritePut(c)).Some? && c !in Step(s, WritePut(c)).value.writers
    ensures c !in s.closers ==>
      Step(s, CloseCheck(c)) == Some(if s.closed then s else s.(closers := s.closers[c := Checked]))
    ensures c in s.closers ==>
      match s.closers[c]
      case Checked => Step(s, CloseFlag(c)) == Some(s.(closed := true, closers := s.closers[c := Flagged]))
      case Flagged => Step(s, CloseCall(c)) == Some(s.(closers := s.closers[c := Called]))
      case Called => Step(s, ClosePut(c)).Some? && c !in Step(s, ClosePut(c)).value.closers
    ensures c !in s.writers ==> Step(s, WritePut(c)).None?
    ensures c !in s.closers ==> Step(s, CloseFlag(c)).None? && Step(s, CloseCall(c)).None? && Step(s, ClosePut(c)).None?
  {
  }

  lemma RunGoesOn<T>(actions: seq<Action<T>>, action: Action<T>)
    ensures Run(actions + [action]) == match Run(actions) case None => None case Some(s) => Step(s, action)
  {
    hide Step;
    assert (actions + [action])[..|actions|] == actions;
  }

  /** So from any moment of any run at which the reader is between rounds with an empty queue,
      a message can be written and read, whatever was written before. */
  lemma EveryMessageCanBeRead<T>(actions: seq<Action<T>>, w: nat, data: T)
    requires Run(actions).Some?
    requires var s := Run(actions).value; !s.closed && s.queue == [] && s.reader == AtClosedCheck && w !in s.writers
    ensures var more := [WriteCheck(w, data)] + [WritePut(w)] + [Read] + [Read];
      Run(actions + more).Some? && Run(actions + more).value.yielded == Run(actions).value.yielded + [data]
  {
    var s := Run(actions).value;
    var s1 := s.(writers := s.writers[w := data]);
    var s2 := Step(s1, WritePut(w)).value;
    assert s2.queue == [Some(data)];
    CallsNeverBlock(s, w, data);
    RoundAlone(s2);
    hide Run, Step, ReadStep;
    var a := actions + [WriteCheck(w, data)];
    RunGoesOn(actions, WriteCheck(w, data));
    RunGoesOn(a, WritePut(w));
    RunGoesOn(a + [WritePut(w)], Read);
    RunGoesOn(a + [WritePut(w)] + [Read], Read);
    assert a + [WritePut(w)] + [Read] + [Read] == actions + ([WriteCheck(w, data)] + [WritePut(w)] + [Read] + [Read]);
    StepReads(s2);
    StepReads(ReadStep(s2).value);
  }

  lemma StepReads<T>(s: State<T>)
    ensures Step(s, Read) == ReadStep(s)
  {
  }

  /** The queue entries ahead of the first sentinel. */
  function Ahead<T>(queue: seq<Option<T>>): nat {
    if queue == [] || queue[0].None? then 0 else 1 + Ahead(queue[1..])
  }

  /** How far a closed reader is from its end. */
  function Remaining<T>(s: State<T>): nat {
    4 * Ahead(s.queue)
    + match s.reader case Yielded => 3 case AtClosedCheck => 2 case AtEmptyCheck => 1 case _ => 0
  }

  lemma {:induction false} AheadAppend<T>(queue: seq<Option<T>>, e: Option<T>)
    requires None in queue
    ensures Ahead(queue + [e]) == Ahead(queue) && None in queue + [e]
  {
    if queue[0].Some? {
      assert (queue + [e])[1..] == queue[1..] + [e];
      AheadAppend(queue[1..], e);
    }
    var i :| 0 <= i < |queue| && queue[i] == None;
    assert (queue + [e])[i] == None;
  }

  /** A closed reader whose closers have returned is never stuck: some sentinel is queued,
      the generator can always step, each step brings it nearer its end, and whatever else
      happens meanwhile does not take it further away. So it terminates. */
  lemma ClosedReaderTerminates<T>(actions: seq<Action<T>>, action: Action<T>)
    requires Run(actions).Some?
    requires var s := Run(actions).value; s.closed && (None in s.queue || !Owing(s)) && s.reader != Ended
    ensures var s := Run(actions).value;
      && None in s.queue
      && ReadStep(s).Some?
      && (Step(s, action).Some? ==>
            var s' := Step(s, action).value;
            || (action.Read? && s'.reader == Ended)
            || (&& s'.closed && None in s'.queue
                && (if action.Read? then Remaining(s') < Remaining(s) else Remaining(s') == Remaining(s))))
  {
    RunKeepsInv(actions);
    var s := Run(actions).value;
    match action
    case WritePut(w) =>
      if w in s.writers {
        AheadAppend(s.queue, Some(s.writers[w]));
      }
    case ClosePut(c) => AheadAppend(s.queue, None);
    case Read =>
      if s.reader == AtGet && s.queue[0].Some? {
        var i :| 0 <= i < |s.queue| && s.queue[i] == None;
        assert s.queue[1..][i - 1] == None;
      }
    case _ =>
  }
}
