// Merging streamed tool-call fragments into whole tool calls.
module ToolCalls {
  import opened Text

  datatype Function = Function(name: string, arguments: string)

  /** One entry of a delta's `tool_calls`; an absent id, type or name is the empty string. */
  datatype Fragment = Fragment(index: Option<int>, id: string, kind: string, func: Option<Function>)

  datatype ToolCall = ToolCall(id: string, kind: string, name: string, arguments: string)

  /** What a stream has accumulated: the merged calls, the id given to each index, and how
      many ids were generated. */
  datatype State = State(calls: seq<ToolCall>, ids: map<int, Id>, generated: nat)

  const INITIAL := State([], map[], 0)

  type Id = s: string | s != "" witness "id"

  /** `_gen_tool_call_id`, the n-th time it is called. */
  type IdSource = nat -> Id

  /** `next((call for call in calls if call.id == id), None)`, as a position. */
  function Position(calls: seq<ToolCall>, id: string): (p: nat)
    ensures p <= |calls|
    ensures p < |calls| ==> calls[p].id == id
    ensures forall i :: 0 <= i < p ==> calls[i].id != id
  {
    if calls == [] || calls[0].id == id then 0 else 1 + Position(calls[1..], id)
  }

  // ---- Giving every indexed fragment its id.

  function ChosenId(st: State, f: Fragment, k: int, gen: IdSource): Id {
    if f.id != "" then f.id else if k in st.ids then st.ids[k] else gen(st.generated)
  }

  function Rename(calls: seq<ToolCall>, previous: Option<string>, id: string): (r: seq<ToolCall>)
    ensures |r| == |calls|
  {
    if previous.None? then calls
    else
      var p := Position(calls, previous.value);
      if p < |calls| then calls[p := calls[p].(id := id)] else calls
  }

  function AssignOne(st: State, f: Fragment, gen: IdSource): (State, Fragment) {
    match f.index
    case None => (st, f)
    case Some(k) =>
      var previous := if k in st.ids then Some(st.ids[k]) else None;
      var id := ChosenId(st, f, k, gen);
      var generated := if f.id == "" && previous.None? then st.generated + 1 else st.generated;
      (State(Rename(st.calls, previous, id), st.ids[k := id], generated), f.(id := id))
  }

  function AssignAll(st: State, delta: seq<Fragment>, gen: IdSource): (State, seq<Fragment>)
    decreases |delta|
  {
    if delta == [] then (st, [])
    else
      var (mid, first) := AssignOne(st, delta[0], gen);
      var (end, rest) := AssignAll(mid, delta[1..], gen);
      (end, [first] + rest)
  }

  // ---- Merging.

  /** `_extract_response_tool_calls`: fragments without a function are dropped. */
  function Extract(delta: seq<Fragment>): seq<ToolCall> {
    if delta == [] then []
    else
      var f := delta[0];
      (if f.func.None? then []
       else [ToolCall(f.id, f.kind, f.func.value.name, f.func.value.arguments)])
      + Extract(delta[1..])
  }

  function Update(call: ToolCall, part: ToolCall): ToolCall {
    ToolCall(if part.id != "" then part.id else call.id,
             if part.kind != "" then part.kind else call.kind,
             if part.name != "" then part.name else call.name,
             call.arguments + part.arguments)
  }

  /** A nameless, id-less part continues the last call; with no call yet it is an error. */
  function IncreaseOne(st: State, part: ToolCall, gen: IdSource): Option<State> {
    if part.id == "" && part.name == "" then
      if st.calls == [] then None
      else
        var p := |st.calls| - 1;
        Some(st.(calls := st.calls[p := Update(st.calls[p], part)]))
    else
      var part' := if part.id == "" then part.(id := gen(st.generated)) else part;
      var generated := if part.id == "" then st.generated + 1 else st.generated;
      var p := Position(st.calls, part'.id);
      var calls := if p < |st.calls| then st.calls else st.calls + [ToolCall(part'.id, "function", "", "")];
      Some(State(calls[p := Update(calls[p], part')], st.ids, generated))
  }

  function IncreaseAll(st: State, parts: seq<ToolCall>, gen: IdSource): Option<State>
    decreases |parts|
  {
    if parts == [] then Some(st)
    else match IncreaseOne(st, parts[0], gen)
      case None => None
      case Some(mid) => IncreaseAll(mid, parts[1..], gen)
  }

  /** One delta. */
  function FeedDelta(st: State, delta: seq<Fragment>, gen: IdSource): Option<State> {
    var (mid, labelled) := AssignAll(st, delta, gen);
    IncreaseAll(mid, Extract(labelled), gen)
  }

  function Run(st: State, deltas: seq<seq<Fragment>>, gen: IdSource): Option<State>
    decreases |deltas|
  {
    if deltas == [] then Some(st)
    else match FeedDelta(st, deltas[0], gen)
      case None => None
      case Some(mid) => Run(mid, deltas[1..], gen)
  }

  /** The accumulating variables of the stream handler, updated in place. */
  class Merger {
    var calls: seq<ToolCall>
    var ids: map<int, Id>
    var generated: nat
    const gen: IdSource

    function Now(): State
      reads this
    {
      State(calls, ids, generated)
    }

    constructor (gen: IdSource)
      ensures Now() == INITIAL && this.gen == gen
    {
      this.gen := gen;
      calls, ids, generated := [], map[], 0;
    }

    method GenerateId() returns (id: Id)
      modifies this`generated
      ensures id == gen(old(generated)) && generated == old(generated) + 1
    {
      id := gen(generated);
      generated := generated + 1;
    }

    /** The body of the loop that labels a delta's fragments. */
    method AssignId(fragment: Fragment) returns (f: Fragment)
      modifies this
      ensures (Now(), f) == AssignOne(old(Now()), fragment, gen)
    {
      f := fragment;
      if f.index.Some? {
        var k := f.index.value;
        var previous := if k in ids then Some(ids[k]) else None;
        var id: string := f.id;
        if id == "" {
          if previous.Some? {
            id := previous.value;
          } else {
            id := GenerateId();
          }
        }
        if previous.Some? {
          var p := Position(calls, previous.value);
          if p < |calls| {
            calls := calls[p := calls[p].(id := id)];
          }
        }
        ids := ids[k := id];
        f := f.(id := id);
      }
    }

    method AssignIds(delta: seq<Fragment>) returns (labelled: seq<Fragment>)
      modifies this
      ensures (Now(), labelled) == AssignAll(old(Now()), delta, gen)
    {
      hide AssignOne;
      labelled := [];
      ghost var all := AssignAll(Now(), delta, gen).1;
      assert delta[0..] == delta && labelled + all == all;
      for i := 0 to |delta|
        invariant AssignAll(old(Now()), delta, gen)
               == var (end, rest) := AssignAll(Now(), delta[i..], gen); (end, labelled + rest)
      {
        assert delta[i..][0] == delta[i] && delta[i..][1..] == delta[i + 1..];
        var f := AssignId(delta[i]);
        ghost var rest := AssignAll(Now(), delta[i + 1..], gen).1;
        assert labelled + ([f] + rest) == labelled + [f] + rest;
        labelled := labelled + [f];
      }
      assert delta[|delta|..] == [] && labelled + [] == labelled;
    }

    /** The body of the loop of `_increase_tool_call`; `ok` is false when it raises. */
    method IncreaseBy(newPart: ToolCall) returns (ok: bool)
      modifies this
      ensures IncreaseOne(old(Now()), newPart, gen) == if ok then Some(Now()) else None
    {
      var part := newPart;
      if part.name != "" && part.id == "" {
        var id := GenerateId();
        part := part.(id := id);
      }
      var p: nat;
      if part.id == "" {
        if calls == [] {
          return false;
        }
        p := |calls| - 1;
      } else {
        p := Position(calls, part.id);
        if p == |calls| {
          calls := calls + [ToolCall(part.id, "function", "", "")];
        }
      }
      calls := calls[p := Update(calls[p], part)];
      ok := true;
    }

    /** `_increase_tool_call`. */
    method Increase(parts: seq<ToolCall>) returns (ok: bool)
      modifies this
      ensures IncreaseAll(old(Now()), parts, gen) == if ok then Some(Now()) else None
    {
      hide IncreaseOne;
      ok := true;
      for i := 0 to |parts|
        invariant ok
        invariant IncreaseAll(old(Now()), parts, gen) == IncreaseAll(Now(), parts[i..], gen)
      {
        assert parts[i..][0] == parts[i] && parts[i..][1..] == parts[i + 1..];
        ok := IncreaseBy(parts[i]);
        if !ok {
          return;
        }
      }
    }

    method Feed(delta: seq<Fragment>) returns (ok: bool)
      modifies this
      ensures FeedDelta(old(Now()), delta, gen) == if ok then Some(Now()) else None
    {
      var labelled := AssignIds(delta);
      ok := Increase(Extract(labelled));
    }
  }

  // ---- No argument text is lost, invented or split: every fragment goes to one call.

  /** One fragment's arguments, appended to the call at a position. */
  datatype Posting = Posting(position: nat, text: string)

  function Gathered(log: seq<Posting>, p: nat): string {
    if log == [] then ""
    else
      var last := log[|log| - 1];
      Gathered(log[..|log| - 1], p) + if last.position == p then last.text else ""
  }

  function Texts(log: seq<Posting>): seq<string> {
    if log == [] then [] else Texts(log[..|log| - 1]) + [log[|log| - 1].text]
  }

  /** The argument texts of a run, in order of arrival. */
  function ArgumentTexts(delta: seq<Fragment>): seq<string> {
    if delta == [] then []
    else (if delta[0].func.None? then [] else [delta[0].func.value.arguments]) + ArgumentTexts(delta[1..])
  }

  function PartTexts(parts: seq<ToolCall>): seq<string> {
    if parts == [] then [] else [parts[0].arguments] + PartTexts(parts[1..])
  }

  /** `log` accounts for the arguments of every call. */
  ghost predicate Explains(log: seq<Posting>, calls: seq<ToolCall>) {
    && (forall j :: 0 <= j < |log| ==> log[j].position < |calls|)
    && (forall p :: 0 <= p < |calls| ==> calls[p].arguments == Gathered(log, p))
  }

  lemma {:induction false} GatheredNowhere(log: seq<Posting>, p: nat)
    requires forall j :: 0 <= j < |log| ==> log[j].position != p
    ensures Gathered(log, p) == ""
  {
    if log != [] {
      GatheredNowhere(log[..|log| - 1], p);
    }
  }

  lemma {:induction false} AssignKeepsArguments(st: State, delta: seq<Fragment>, gen: IdSource, log: seq<Posting>)
    requires Explains(log, st.calls)
    ensures Explains(log, AssignAll(st, delta, gen).0.calls)
    ensures ArgumentTexts(AssignAll(st, delta, gen).1) == ArgumentTexts(delta)
    decreases |delta|
  {
    if delta != [] {
      var (mid, first) := AssignOne(st, delta[0], gen);
      AssignKeepsArguments(mid, delta[1..], gen, log);
      var rest := AssignAll(mid, delta[1..], gen).1;
      assert ([first] + rest)[1..] == rest;
    }
  }

  lemma {:induction false} ExtractTexts(delta: seq<Fragment>)
    ensures PartTexts(Extract(delta)) == ArgumentTexts(delta)
  {
    if delta != [] {
      ExtractTexts(delta[1..]);
      if delta[0].func.Some? {
        assert Extract(delta)[1..] == Extract(delta[1..]);
      } else {
        assert Extract(delta) == Extract(delta[1..]);
      }
    }
  }

  lemma IncreaseOneExplained(st: State, part: ToolCall, gen: IdSource, log: seq<Posting>) returns (log': seq<Posting>)
    requires Explains(log, st.calls)
    requires IncreaseOne(st, part, gen).Some?
    ensures Explains(log', IncreaseOne(st, part, gen).value.calls)
    ensures Texts(log') == Texts(log) + [part.arguments]
  {
    var id := if part.id == "" then gen(st.generated) else part.id;
    var p := if part.id == "" && part.name == "" then |st.calls| - 1 else Position(st.calls, id);
    var calls := IncreaseOne(st, part, gen).value.calls;
    log' := log + [Posting(p, part.arguments)];
    assert log'[..|log|] == log;
    GatheredNowhere(log, |st.calls|);
    forall q | 0 <= q < |calls|
      ensures calls[q].arguments == Gathered(log', q)
    {
      assert q < |st.calls| ==> st.calls[q].arguments == Gathered(log, q);
      assert Gathered(log', q) == Gathered(log, q) + if q == p then part.arguments else "";
    }
  }

  lemma {:induction false} IncreaseExplained(st: State, parts: seq<ToolCall>, gen: IdSource, log: seq<Posting>)
    returns (log': seq<Posting>)
    requires Explains(log, st.calls)
    requires IncreaseAll(st, parts, gen).Some?
    ensures Explains(log', IncreaseAll(st, parts, gen).value.calls)
    ensures Texts(log') == Texts(log) + PartTexts(parts)
    decreases |parts|
  {
    hide Explains, IncreaseOne, Texts;
    if parts == [] {
      log' := log;
    } else {
      var mid := IncreaseOneExplained(st, parts[0], gen, log);
      log' := IncreaseExplained(IncreaseOne(st, parts[0], gen).value, parts[1..], gen, mid);
      Associate(Texts(log), [parts[0].arguments], PartTexts(parts[1..]));
    }
  }

  function AllTexts(deltas: seq<seq<Fragment>>): seq<string> {
    if deltas == [] then [] else ArgumentTexts(deltas[0]) + AllTexts(deltas[1..])
  }

  lemma FeedExplained(st: State, delta: seq<Fragment>, gen: IdSource, log: seq<Posting>) returns (log': seq<Posting>)
    requires Explains(log, st.calls)
    requires FeedDelta(st, delta, gen).Some?
    ensures Explains(log', FeedDelta(st, delta, gen).value.calls)
    ensures Texts(log') == Texts(log) + ArgumentTexts(delta)
  {
    hide Explains, AssignAll, IncreaseAll, Extract;
    var (mid, labelled) := AssignAll(st, delta, gen);
    AssignKeepsArguments(st, delta, gen, log);
    ExtractTexts(labelled);
    log' := IncreaseExplained(mid, Extract(labelled), gen, log);
  }

  lemma Associate(a: seq<string>, b: seq<string>, c: seq<string>)
    ensures (a + b) + c == a + (b + c)
  {
  }

  lemma {:induction false} RunExplained(st: State, deltas: seq<seq<Fragment>>, gen: IdSource, log: seq<Posting>)
    returns (log': seq<Posting>)
    requires Explains(log, st.calls)
    requires Run(st, deltas, gen).Some?
    ensures Explains(log', Run(st, deltas, gen).value.calls)
    ensures Texts(log') == Texts(log) + AllTexts(deltas)
    decreases |deltas|
  {
    hide Explains, FeedDelta, Texts, ArgumentTexts;
    if deltas == [] {
      log' := log;
    } else {
      var mid := FeedExplained(st, deltas[0], gen, log);
      log' := RunExplained(FeedDelta(st, deltas[0], gen).value, deltas[1..], gen, mid);
      Associate(Texts(log), ArgumentTexts(deltas[0]), AllTexts(deltas[1..]));
    }
  }

  /** Every run that does not raise sends each fragment's arguments, whole and in order of
      arrival, to exactly one call, and the calls hold nothing else. */
  lemma EveryFragmentHasOneCall(deltas: seq<seq<Fragment>>, gen: IdSource)
    requires Run(INITIAL, deltas, gen).Some?
    ensures exists log :: Explains(log, Run(INITIAL, deltas, gen).value.calls) && Texts(log) == AllTexts(deltas)
  {
    var log := RunExplained(INITIAL, deltas, gen, []);
    assert Texts([]) == [];
  }

  function TotalLength(texts: seq<string>): nat {
    if texts == [] then 0 else TotalLength(texts[..|texts| - 1]) + |texts[|texts| - 1]|
  }

  /** The summed argument lengths of the first `n` calls. */
  function CallsLength(calls: seq<ToolCall>, n: nat): nat
    requires n <= |calls|
  {
    if n == 0 then 0 else CallsLength(calls, n - 1) + |calls[n - 1].arguments|
  }

  function GatheredLength(log: seq<Posting>, n: nat): nat {
    if n == 0 then 0 else GatheredLength(log, n - 1) + |Gathered(log, n - 1)|
  }

  lemma {:induction false} GatheredLengthSnoc(log: seq<Posting>, n: nat)
    requires log != []
    ensures var last := log[|log| - 1];
      GatheredLength(log, n)
      == GatheredLength(log[..|log| - 1], n) + if last.position < n then |last.text| else 0
  {
    if n > 0 {
      GatheredLengthSnoc(log, n - 1);
    }
  }

  lemma {:induction false} GatheredLengthTotal(log: seq<Posting>, n: nat)
    requires forall j :: 0 <= j < |log| ==> log[j].position < n
    ensures GatheredLength(log, n) == TotalLength(Texts(log))
  {
    if log == [] {
      GatheredLengthEmpty(n);
    } else {
      GatheredLengthSnoc(log, n);
      GatheredLengthTotal(log[..|log| - 1], n);
      assert Texts(log)[..|Texts(log)| - 1] == Texts(log[..|log| - 1]);
    }
  }

  lemma {:induction false} GatheredLengthEmpty(n: nat)
    ensures GatheredLength([], n) == 0
  {
    if n > 0 {
      GatheredLengthEmpty(n - 1);
    }
  }

  lemma {:induction false} CallsLengthExplained(log: seq<Posting>, calls: seq<ToolCall>, n: nat)
    requires Explains(log, calls) && n <= |calls|
    ensures CallsLength(calls, n) == GatheredLength(log, n)
  {
    hide Gathered;
    if n > 0 {
      CallsLengthExplained(log, calls, n - 1);
    }
  }

  /** In particular the amount of argument text is conserved. */
  lemma ArgumentLengthConserved(deltas: seq<seq<Fragment>>, gen: IdSource)
    requires Run(INITIAL, deltas, gen).Some?
    ensures var calls := Run(INITIAL, deltas, gen).value.calls;
      CallsLength(calls, |calls|) == TotalLength(AllTexts(deltas))
  {
    EveryFragmentHasOneCall(deltas, gen);
    var calls := Run(INITIAL, deltas, gen).value.calls;
    var log :| Explains(log, calls) && Texts(log) == AllTexts(deltas);
    CallsLengthExplained(log, calls, |calls|);
    GatheredLengthTotal(log, |calls|);
  }

  // ---- What each index ends up with.

  predicate IsFor(f: Fragment, k: int) {
    f.index == Some(k) && f.func.Some?
  }

  predicate HasFunction(history: seq<Fragment>, k: int) {
    exists i :: 0 <= i < |history| && IsFor(history[i], k)
  }

  /** The fragments of index `k`, in order, glued together. */
  function ArgumentsOf(history: seq<Fragment>, k: int): string {
    if history == [] then ""
    else
      var f := history[|history| - 1];
      ArgumentsOf(history[..|history| - 1], k) + if IsFor(f, k) then f.func.value.arguments else ""
  }

  /** The last name given for index `k`. */
  function NameOf(history: seq<Fragment>, k: int): string {
    if history == [] then ""
    else
      var f := history[|history| - 1];
      if IsFor(f, k) && f.func.value.name != "" then f.func.value.name
      else NameOf(history[..|history| - 1], k)
  }

  /** The last type given for index `k`. */
  function KindOf(history: seq<Fragment>, k: int): string {
    if history == [] then "function"
    else
      var f := history[|history| - 1];
      if IsFor(f, k) && f.kind != "" then f.kind else KindOf(history[..|history| - 1], k)
  }

  ghost predicate IdsDistinct(ids: map<int, Id>) {
    forall j, k :: j in ids && k in ids && ids[j] == ids[k] ==> j == k
  }

  ghost predicate InUse(ids: map<int, Id>, id: string) {
    exists k :: k in ids && ids[k] == id
  }

  ghost predicate CallsDistinct(calls: seq<ToolCall>) {
    forall p, q :: 0 <= p < q < |calls| ==> calls[p].id != calls[q].id
  }

  /** The merged call of index `k`, if any of its fragments had a function. */
  ghost predicate Holds(calls: seq<ToolCall>, id: Id, history: seq<Fragment>, k: int) {
    var p := Position(calls, id);
    if HasFunction(history, k) then
      && p < |calls|
      && calls[p] == ToolCall(id, KindOf(history, k), NameOf(history, k), ArgumentsOf(history, k))
    else
      p == |calls|
  }

  /** Each index has its own call, holding what that index sent, and there are no others. */
  ghost predicate MergedByIndex(st: State, history: seq<Fragment>) {
    && IdsDistinct(st.ids)
    && CallsDistinct(st.calls)
    && (forall p :: 0 <= p < |st.calls| ==> InUse(st.ids, st.calls[p].id))
    && (forall k :: k in st.ids ==> Holds(st.calls, st.ids[k], history, k))
    && (forall i :: 0 <= i < |history| ==> history[i].index.Some? && history[i].index.value in st.ids)
  }

  predicate Indexed(delta: seq<Fragment>) {
    && (forall i :: 0 <= i < |delta| ==> delta[i].index.Some?)
    && (forall i, j :: 0 <= i < j < |delta| ==> delta[i].index != delta[j].index)
  }

  /** The id about to be given to `f` is not in use for another index. */
  ghost predicate Separate(st: State, f: Fragment, gen: IdSource)
    requires f.index.Some?
  {
    forall j :: j in st.ids && j != f.index.value ==> st.ids[j] != ChosenId(st, f, f.index.value, gen)
  }

  ghost predicate SeparateAll(st: State, delta: seq<Fragment>, gen: IdSource)
    requires forall i :: 0 <= i < |delta| ==> delta[i].index.Some?
    decreases |delta|
  {
    delta == [] || (Separate(st, delta[0], gen) && SeparateAll(AssignOne(st, delta[0], gen).0, delta[1..], gen))
  }

  lemma AssignOneKeeps(st: State, f: Fragment, gen: IdSource, history: seq<Fragment>)
    requires MergedByIndex(st, history) && f.index.Some? && Separate(st, f, gen)
    ensures var (st', f') := AssignOne(st, f, gen);
      && MergedByIndex(st', history)
      && f'.id != "" && st'.ids == st.ids[f.index.value := f'.id] && f' == f.(id := f'.id)
  {
    var k := f.index.value;
    var (st', f') := AssignOne(st, f, gen);
    var calls := st'.calls;
    forall p | 0 <= p < |calls|
      ensures InUse(st'.ids, calls[p].id)
    {
      if st.calls[p].id == calls[p].id {
        var j :| j in st.ids && st.ids[j] == calls[p].id;
        assert j != k || st'.ids[k] == calls[p].id by {
          if j == k {
            assert Position(st.calls, st.ids[k]) == p;
          }
        }
        assert st'.ids[j] == calls[p].id;
      } else {
        assert st'.ids[k] == calls[p].id;
      }
    }
    RenameKeepsDistinct(st, f, gen);
    forall j | j in st'.ids
      ensures Holds(calls, st'.ids[j], history, j)
    {
      if j in st.ids {
        assert Holds(st.calls, st.ids[j], history, j);
      }
      AssignHolds(st, f, gen, history, j);
    }
  }

  lemma RenameKeepsDistinct(st: State, f: Fragment, gen: IdSource)
    requires IdsDistinct(st.ids) && CallsDistinct(st.calls) && f.index.Some? && Separate(st, f, gen)
    requires forall p :: 0 <= p < |st.calls| ==> InUse(st.ids, st.calls[p].id)
    ensures CallsDistinct(AssignOne(st, f, gen).0.calls)
  {
    var k, calls := f.index.value, AssignOne(st, f, gen).0.calls;
    forall p, q | 0 <= p < q < |calls|
      ensures calls[p].id != calls[q].id
    {
      assert InUse(st.ids, st.calls[p].id) && InUse(st.ids, st.calls[q].id);
    }
  }

  lemma AssignHolds(st: State, f: Fragment, gen: IdSource, history: seq<Fragment>, j: int)
    requires MergedByIndex(st, history) && f.index.Some? && Separate(st, f, gen)
    requires j in AssignOne(st, f, gen).0.ids
    ensures var st' := AssignOne(st, f, gen).0; Holds(st'.calls, st'.ids[j], history, j)
  {
    var k := f.index.value;
    var st' := AssignOne(st, f, gen).0;
    var id := st'.ids[j];
    if j in st.ids {
      assert Holds(st.calls, st.ids[j], history, j);
      var p := Position(st.calls, st.ids[j]);
      forall i | 0 <= i < |st.calls| && i != p
        ensures st'.calls[i].id != id
      {
        assert InUse(st.ids, st.calls[i].id);
        var m :| m in st.ids && st.ids[m] == st.calls[i].id;
        assert m != j;
      }
      PositionIs(st'.calls, id, p);
    } else {
      assert !HasFunction(history, j);
      forall i | 0 <= i < |st.calls|
        ensures st'.calls[i].id != id
      {
        assert InUse(st.ids, st.calls[i].id);
      }
    }
  }

  /** `labelled` is `delta` with each fragment under the id its index has in `end`. */
  ghost predicate Labelled(ids: map<int, Id>, delta: seq<Fragment>, end: map<int, Id>, labelled: seq<Fragment>)
    requires forall i :: 0 <= i < |delta| ==> delta[i].index.Some?
  {
    && |labelled| == |delta|
    && (forall k :: k in ids ==> k in end)
    && (forall k :: k in ids && !Mentions(delta, k) ==> end[k] == ids[k])
    && (forall i :: 0 <= i < |delta| ==>
          delta[i].index.value in end && labelled[i] == delta[i].(id := end[delta[i].index.value]))
  }

  predicate Mentions(delta: seq<Fragment>, k: int) {
    exists i :: 0 <= i < |delta| && delta[i].index == Some(k)
  }

  lemma {:induction false} AssignAllKeeps(st: State, delta: seq<Fragment>, gen: IdSource, history: seq<Fragment>)
    requires MergedByIndex(st, history) && Indexed(delta) && SeparateAll(st, delta, gen)
    ensures var (end, labelled) := AssignAll(st, delta, gen);
      MergedByIndex(end, history) && Labelled(st.ids, delta, end.ids, labelled)
    decreases |delta|
  {
    hide AssignOne, MergedByIndex;
    if delta != [] {
      var (mid, first) := AssignOne(st, delta[0], gen);
      var (end, rest) := AssignAll(mid, delta[1..], gen);
      AssignOneKeeps(st, delta[0], gen, history);
      AssignAllKeeps(mid, delta[1..], gen, history);
      LabelledCons(st.ids, delta, mid.ids, first, end.ids, rest);
    }
  }

  lemma LabelledCons(ids: map<int, Id>, delta: seq<Fragment>, mid: map<int, Id>, first: Fragment,
                     end: map<int, Id>, rest: seq<Fragment>)
    requires delta != [] && Indexed(delta) && first.id != ""
    requires mid == ids[delta[0].index.value := first.id] && first == delta[0].(id := first.id)
    requires Labelled(mid, delta[1..], end, rest)
    ensures Labelled(ids, delta, end, [first] + rest)
  {
    var k := delta[0].index.value;
    assert !Mentions(delta[1..], k) by {
      forall i | 0 <= i < |delta[1..]|
        ensures delta[1..][i].index != Some(k)
      {
        assert delta[1..][i] == delta[i + 1];
      }
    }
    assert k in mid && end[k] == first.id;
    forall j | j in ids && !Mentions(delta, j)
      ensures end[j] == ids[j]
    {
      assert delta[0].index != Some(j);
      assert !Mentions(delta[1..], j) by {
        forall i | 0 <= i < |delta[1..]|
          ensures delta[1..][i].index != Some(j)
        {
          assert delta[1..][i] == delta[i + 1];
        }
      }
      assert j in mid && mid[j] == ids[j];
    }
    forall i | 0 <= i < |delta|
      ensures delta[i].index.value in end && ([first] + rest)[i] == delta[i].(id := end[delta[i].index.value])
    {
      if i > 0 {
        assert delta[1..][i - 1] == delta[i];
      }
    }
  }

  /** The part sent to `_increase_tool_call` for an indexed fragment. */
  function PartOf(f: Fragment, id: Id): ToolCall
    requires f.func.Some?
  {
    ToolCall(id, f.kind, f.func.value.name, f.func.value.arguments)
  }

  lemma IncreaseOneKeeps(st: State, f: Fragment, gen: IdSource, history: seq<Fragment>)
    requires MergedByIndex(st, history) && f.index.Some? && f.index.value in st.ids && f.func.Some?
    ensures var r := IncreaseOne(st, PartOf(f, st.ids[f.index.value]), gen);
      r.Some? && r.value.ids == st.ids && MergedByIndex(r.value, history + [f])
  {
    hide Holds;
    var k := f.index.value;
    var calls := IncreaseOne(st, PartOf(f, st.ids[k]), gen).value.calls;
    forall j | j in st.ids
      ensures Holds(calls, st.ids[j], history + [f], j)
    {
      IncreaseHolds(st, f, gen, history, j);
    }
    forall q | 0 <= q < |calls|
      ensures InUse(st.ids, calls[q].id)
    {
      assert q < |st.calls| ==> InUse(st.ids, st.calls[q].id);
    }
  }

  lemma IncreaseHolds(st: State, f: Fragment, gen: IdSource, history: seq<Fragment>, j: int)
    requires f.index.Some? && f.index.value in st.ids && f.func.Some?
    requires j in st.ids && Holds(st.calls, st.ids[j], history, j)
    requires j == f.index.value || st.ids[j] != st.ids[f.index.value]
    ensures var calls := IncreaseOne(st, PartOf(f, st.ids[f.index.value]), gen).value.calls;
      Holds(calls, st.ids[j], history + [f], j)
  {
    var k := f.index.value;
    var id, part := st.ids[k], PartOf(f, st.ids[k]);
    var calls := IncreaseOne(st, part, gen).value.calls;
    var p := Position(st.calls, id);
    assert (history + [f])[..|history|] == history;
    HasFunctionSnoc(history, f);
    assert calls[p] == Update(if p < |st.calls| then st.calls[p] else ToolCall(id, "function", "", ""), part);
    hide IncreaseOne, HasFunction, Position;
    if j == k {
      if !HasFunction(history, k) {
        NothingYet(history, k);
      }
      PositionIs(calls, id, p);
    } else {
      assert st.ids[j] != id;
      PositionIs(calls, st.ids[j], if HasFunction(history, j) then Position(st.calls, st.ids[j]) else |calls|);
    }
  }

  lemma PositionIs(calls: seq<ToolCall>, id: string, p: nat)
    requires p <= |calls| && (p < |calls| ==> calls[p].id == id)
    requires forall i :: 0 <= i < p ==> calls[i].id != id
    ensures Position(calls, id) == p
  {
  }

  lemma HasFunctionSnoc(history: seq<Fragment>, f: Fragment)
    ensures forall k :: HasFunction(history + [f], k) <==> HasFunction(history, k) || IsFor(f, k)
  {
    var longer := history + [f];
    forall k
      ensures HasFunction(longer, k) <==> HasFunction(history, k) || IsFor(f, k)
    {
      if HasFunction(history, k) {
        var i :| 0 <= i < |history| && IsFor(history[i], k);
        assert IsFor(longer[i], k);
      }
      assert longer[|history|] == f;
    }
  }

  lemma {:induction false} NothingYet(history: seq<Fragment>, k: int)
    requires !HasFunction(history, k)
    ensures ArgumentsOf(history, k) == "" && NameOf(history, k) == "" && KindOf(history, k) == "function"
  {
    if history != [] {
      var shorter := history[..|history| - 1];
      assert history == shorter + [history[|history| - 1]];
      HasFunctionSnoc(shorter, history[|history| - 1]);
      NothingYet(shorter, k);
    }
  }

  /** A fragment without a function only affects its index's id. */
  lemma SkipKeeps(st: State, f: Fragment, history: seq<Fragment>)
    requires MergedByIndex(st, history) && f.index.Some? && f.index.value in st.ids && f.func.None?
    ensures MergedByIndex(st, history + [f])
  {
    var longer := history + [f];
    assert longer[..|history|] == history;
    HasFunctionSnoc(history, f);
    forall j | j in st.ids
      ensures Holds(st.calls, st.ids[j], longer, j)
    {
      assert Holds(st.calls, st.ids[j], history, j);
    }
  }

  lemma {:induction false} IncreaseAllKeeps(st: State, delta: seq<Fragment>, labelled: seq<Fragment>,
                                            gen: IdSource, history: seq<Fragment>)
    requires MergedByIndex(st, history) && |labelled| == |delta|
    requires forall i :: 0 <= i < |delta| ==>
      && delta[i].index.Some? && delta[i].index.value in st.ids
      && labelled[i] == delta[i].(id := st.ids[delta[i].index.value])
    ensures var r := IncreaseAll(st, Extract(labelled), gen);
      r.Some? && r.value.ids == st.ids && MergedByIndex(r.value, history + delta)
    decreases |delta|
  {
    hide MergedByIndex, IncreaseOne;
    if delta == [] {
      assert history + delta == history;
    } else {
      var f := delta[0];
      assert history + [f] + delta[1..] == history + delta;
      if f.func.Some? {
        IncreaseOneKeeps(st, f, gen, history);
        var part := PartOf(f, st.ids[f.index.value]);
        assert Extract(labelled)[0] == part && Extract(labelled)[1..] == Extract(labelled[1..]);
        IncreaseAllKeeps(IncreaseOne(st, part, gen).value, delta[1..], labelled[1..], gen, history + [f]);
      } else {
        SkipKeeps(st, f, history);
        assert Extract(labelled) == Extract(labelled[1..]);
        IncreaseAllKeeps(st, delta[1..], labelled[1..], gen, history + [f]);
      }
    }
  }

  lemma FeedKeeps(st: State, delta: seq<Fragment>, gen: IdSource, history: seq<Fragment>)
    requires MergedByIndex(st, history) && Indexed(delta) && SeparateAll(st, delta, gen)
    ensures FeedDelta(st, delta, gen).Some?
    ensures MergedByIndex(FeedDelta(st, delta, gen).value, history + delta)
    ensures FeedDelta(st, delta, gen).value.ids == AssignAll(st, delta, gen).0.ids
  {
    hide MergedByIndex, AssignAll, IncreaseAll, Extract;
    var (mid, labelled) := AssignAll(st, delta, gen);
    AssignAllKeeps(st, delta, gen, history);
    IncreaseAllKeeps(mid, delta, labelled, gen, history);
  }

  /** No fragment of the run is given an id in use for another index. */
  ghost predicate RunSeparate(st: State, deltas: seq<seq<Fragment>>, gen: IdSource)
    requires forall d :: 0 <= d < |deltas| ==> Indexed(deltas[d])
    decreases |deltas|
  {
    deltas == []
    || (&& Indexed(deltas[0])
        && SeparateAll(st, deltas[0], gen)
        && (FeedDelta(st, deltas[0], gen).Some? ==>
              RunSeparate(FeedDelta(st, deltas[0], gen).value, deltas[1..], gen)))
  }

  lemma {:induction false} RunKeeps(st: State, deltas: seq<seq<Fragment>>, gen: IdSource, history: seq<Fragment>)
    requires MergedByIndex(st, history)
    requires forall d :: 0 <= d < |deltas| ==> Indexed(deltas[d])
    requires RunSeparate(st, deltas, gen)
    ensures Run(st, deltas, gen).Some?
    ensures MergedByIndex(Run(st, deltas, gen).value, history + Concat(deltas))
    decreases |deltas|
  {
    hide MergedByIndex, FeedDelta, SeparateAll, Indexed;
    if deltas == [] {
      assert history + Concat(deltas) == history;
    } else {
      FeedKeeps(st, deltas[0], gen, history);
      RunKeeps(FeedDelta(st, deltas[0], gen).value, deltas[1..], gen, history + deltas[0]);
      assert history + deltas[0] + Concat(deltas[1..]) == history + Concat(deltas);
    }
  }

  // ---- The same in terms of the input.

  /** The id last carried by a fragment of index `k`, or "" if none was. */
  function Carried(history: seq<Fragment>, k: int): string {
    if history == [] then ""
    else
      var f := history[|history| - 1];
      if f.index == Some(k) && f.id != "" then f.id else Carried(history[..|history| - 1], k)
  }

  /** Generated ids are new: never repeated, and never sent by the provider. */
  ghost predicate Fresh(gen: IdSource, fragments: seq<Fragment>) {
    && (forall m: nat, n: nat :: gen(m) == gen(n) ==> m == n)
    && (forall n: nat, i :: 0 <= i < |fragments| ==> gen(n) != fragments[i].id)
  }

  ghost predicate Generated(st: State, gen: IdSource, id: string) {
    exists n: nat :: n < st.generated && id == gen(n)
  }

  /** The id of every index is the last one it carried, or else one generated for it. */
  ghost predicate IdsFrom(st: State, history: seq<Fragment>, gen: IdSource) {
    && (forall k :: k in st.ids && Carried(history, k) != "" ==> st.ids[k] == Carried(history, k))
    && (forall k :: k in st.ids && Carried(history, k) == "" ==> Generated(st, gen, st.ids[k]))
    && (forall j, k :: j in st.ids && k in st.ids && j != k && Carried(history, j) == "" && Carried(history, k) == ""
          ==> st.ids[j] != st.ids[k])
    && (forall k :: k !in st.ids ==> Carried(history, k) == "")
    && (forall k :: k in st.ids && Carried(history, k) != "" ==>
          exists i :: 0 <= i < |history| && history[i].id == Carried(history, k))
  }

  /** `f` carries the id that another index carried last. */
  ghost predicate Clash(history: seq<Fragment>, f: Fragment) {
    f.id != "" && exists j :: f.index != Some(j) && Carried(history, j) == f.id
  }

  /** No fragment, coming after `history` and those before it, clashes. */
  ghost predicate Apart(history: seq<Fragment>, fragments: seq<Fragment>)
    decreases |fragments|
  {
    fragments == [] || (!Clash(history, fragments[0]) && Apart(history + [fragments[0]], fragments[1..]))
  }

  lemma CarriedSnoc(history: seq<Fragment>, f: Fragment, k: int)
    ensures Carried(history + [f], k) == if f.index == Some(k) && f.id != "" then f.id else Carried(history, k)
  {
    assert (history + [f])[..|history|] == history;
  }

  /** Two indices have the same id exactly when they carried the same one last. */
  lemma SameIdExactly(st: State, history: seq<Fragment>, gen: IdSource, all: seq<Fragment>, j: int, k: int)
    requires IdsFrom(st, history, gen) && Fresh(gen, all) && (forall f <- history :: f in all)
    requires j in st.ids && k in st.ids && j != k
    ensures st.ids[j] == st.ids[k] <==> Carried(history, j) == Carried(history, k) != ""
  {
    CarriedIsNotGenerated(st, history, gen, all, j);
    CarriedIsNotGenerated(st, history, gen, all, k);
  }

  lemma CarriedIsNotGenerated(st: State, history: seq<Fragment>, gen: IdSource, all: seq<Fragment>, k: int)
    requires IdsFrom(st, history, gen) && Fresh(gen, all) && (forall f <- history :: f in all)
    requires k in st.ids
    ensures Carried(history, k) != "" ==> !Generated(st, gen, Carried(history, k))
  {
    if Carried(history, k) != "" {
      var i :| 0 <= i < |history| && history[i].id == Carried(history, k);
      assert history[i] in all;
      var n :| 0 <= n < |all| && all[n] == history[i];
    }
  }

  lemma AssignIdsFrom(st: State, f: Fragment, gen: IdSource, history: seq<Fragment>)
    requires IdsFrom(st, history, gen) && f.index.Some? && forall m: nat, n: nat :: gen(m) == gen(n) ==> m == n
    ensures IdsFrom(AssignOne(st, f, gen).0, history + [f], gen)
  {
    hide Carried, Rename;
    var k, st', longer := f.index.value, AssignOne(st, f, gen).0, history + [f];
    forall j
      ensures Carried(longer, j) == if j == k && f.id != "" then f.id else Carried(history, j)
    {
      CarriedSnoc(history, f, j);
    }
    forall j | j in st'.ids && Carried(longer, j) == ""
      ensures Generated(st', gen, st'.ids[j])
      ensures j in st.ids ==> st'.ids[j] == st.ids[j]
      ensures j !in st.ids ==> j == k && st'.ids[j] == gen(st.generated) && !Generated(st, gen, st'.ids[j])
    {
      if j in st.ids {
        assert Generated(st, gen, st.ids[j]);
      }
    }
    forall j | j in st'.ids && Carried(longer, j) != ""
      ensures exists i :: 0 <= i < |longer| && longer[i].id == Carried(longer, j)
    {
      if j == k && f.id != "" {
        assert longer[|history|].id == f.id;
      } else {
        var i :| 0 <= i < |history| && history[i].id == Carried(history, j);
        assert longer[i].id == Carried(longer, j);
      }
    }
  }

  /** While the ids differ, being given an id in use is carrying one that clashes. */
  lemma SeparateIffNoClash(st: State, f: Fragment, gen: IdSource, history: seq<Fragment>, all: seq<Fragment>)
    requires IdsFrom(st, history, gen) && Fresh(gen, all) && (forall h <- history :: h in all) && f in all
    requires IdsDistinct(st.ids) && f.index.Some?
    ensures Separate(st, f, gen) <==> !Clash(history, f)
  {
    var k := f.index.value;
    var n :| 0 <= n < |all| && all[n] == f;
    forall j | j in st.ids && j != k
      ensures st.ids[j] == ChosenId(st, f, k, gen) <==> f.id != "" && Carried(history, j) == f.id
    {
      CarriedIsNotGenerated(st, history, gen, all, j);
      if f.id == "" && k !in st.ids {
        assert !Generated(st, gen, gen(st.generated));
        if Carried(history, j) != "" {
          var i :| 0 <= i < |history| && history[i].id == Carried(history, j);
          assert history[i] in all;
        }
      }
    }
  }

  lemma {:induction false} SeparateAllIffApart(st: State, delta: seq<Fragment>, gen: IdSource,
                                               history: seq<Fragment>, all: seq<Fragment>)
    requires IdsFrom(st, history, gen) && Fresh(gen, all) && IdsDistinct(st.ids)
    requires (forall f <- history :: f in all) && (forall f <- delta :: f in all && f.index.Some?)
    ensures forall i :: 0 <= i < |delta| ==> delta[i].index.Some?
    ensures SeparateAll(st, delta, gen) <==> Apart(history, delta)
    ensures IdsFrom(AssignAll(st, delta, gen).0, history + delta, gen)
    decreases |delta|
  {
    hide AssignOne, Separate, Clash, IdsFrom, IdsDistinct, Fresh;
    if delta == [] {
      assert history + delta == history;
    } else {
      var f, mid := delta[0], AssignOne(st, delta[0], gen).0;
      assert f in delta;
      SeparateIffNoClash(st, f, gen, history, all);
      SeparateExactlyOne(st, f, gen);
      FreshIsInjective(gen, all);
      AssignIdsFrom(st, f, gen, history);
      assert history + [f] + delta[1..] == history + delta;
      if Separate(st, f, gen) {
        SeparateAllIffApart(mid, delta[1..], gen, history + [f], all);
      } else {
        AssignAllIdsFrom(mid, delta[1..], gen, history + [f]);
      }
    }
  }

  lemma FreshIsInjective(gen: IdSource, all: seq<Fragment>)
    requires Fresh(gen, all)
    ensures forall m: nat, n: nat :: gen(m) == gen(n) ==> m == n
  {
  }

  lemma {:induction false} AssignAllIdsFrom(st: State, delta: seq<Fragment>, gen: IdSource, history: seq<Fragment>)
    requires IdsFrom(st, history, gen) && (forall f <- delta :: f.index.Some?)
    requires forall m: nat, n: nat :: gen(m) == gen(n) ==> m == n
    ensures IdsFrom(AssignAll(st, delta, gen).0, history + delta, gen)
    decreases |delta|
  {
    hide AssignOne, IdsFrom;
    if delta == [] {
      assert history + delta == history;
    } else {
      assert delta[0] in delta;
      AssignIdsFrom(st, delta[0], gen, history);
      assert history + [delta[0]] + delta[1..] == history + delta;
      AssignAllIdsFrom(AssignOne(st, delta[0], gen).0, delta[1..], gen, history + [delta[0]]);
    }
  }

  lemma {:induction false} IncreaseGeneratesNone(st: State, parts: seq<ToolCall>, gen: IdSource)
    requires IncreaseAll(st, parts, gen).Some?
    ensures IncreaseAll(st, parts, gen).value.ids == st.ids
    ensures IncreaseAll(st, parts, gen).value.generated >= st.generated
    decreases |parts|
  {
    if parts != [] {
      IncreaseGeneratesNone(IncreaseOne(st, parts[0], gen).value, parts[1..], gen);
    }
  }

  lemma IdsFromLater(st: State, st': State, history: seq<Fragment>, gen: IdSource)
    requires IdsFrom(st, history, gen) && st'.ids == st.ids && st'.generated >= st.generated
    ensures IdsFrom(st', history, gen)
  {
    hide Carried;
    forall k | k in st.ids && Carried(history, k) == ""
      ensures Generated(st', gen, st.ids[k])
    {
      assert Generated(st, gen, st.ids[k]);
      var n: nat :| n < st.generated && st.ids[k] == gen(n);
    }
  }

  lemma FeedIdsFrom(st: State, delta: seq<Fragment>, gen: IdSource, history: seq<Fragment>)
    requires IdsFrom(AssignAll(st, delta, gen).0, history, gen)
    requires FeedDelta(st, delta, gen).Some?
    ensures IdsFrom(FeedDelta(st, delta, gen).value, history, gen)
  {
    var (mid, labelled) := AssignAll(st, delta, gen);
    hide AssignAll, IncreaseAll, IdsFrom;
    IncreaseGeneratesNone(mid, Extract(labelled), gen);
    IdsFromLater(mid, FeedDelta(st, delta, gen).value, history, gen);
  }

  lemma {:induction false} ApartJoins(history: seq<Fragment>, a: seq<Fragment>, b: seq<Fragment>)
    ensures Apart(history, a + b) <==> Apart(history, a) && Apart(history + a, b)
    decreases |a|
  {
    hide Clash;
    if a == [] {
      assert a + b == b && history + a == history;
    } else {
      assert (a + b)[1..] == a[1..] + b;
      assert history + [a[0]] + a[1..] == history + a;
      ApartJoins(history + [a[0]], a[1..], b);
    }
  }

  lemma {:induction false} RunSeparateIffApart(st: State, deltas: seq<seq<Fragment>>, gen: IdSource,
                                               all: seq<Fragment>, history: seq<Fragment>)
    requires MergedByIndex(st, history) && IdsFrom(st, history, gen) && Fresh(gen, all)
    requires forall d :: 0 <= d < |deltas| ==> Indexed(deltas[d])
    requires (forall f <- history :: f in all) && (forall f <- Concat(deltas) :: f in all)
    ensures RunSeparate(st, deltas, gen) <==> Apart(history, Concat(deltas))
    decreases |deltas|
  {
    if deltas != [] {
      hide FeedDelta, SeparateAll, Holds, AssignAll, Apart, IdsFrom, Fresh;
      var delta, later := deltas[0], Concat(deltas[1..]);
      assert Concat(deltas) == delta + later;
      assert forall f <- delta :: f in delta + later;
      assert forall f <- later :: f in delta + later;
      SeparateAllIffApart(st, delta, gen, history, all);
      ApartJoins(history, delta, later);
      if SeparateAll(st, delta, gen) {
        FeedKeeps(st, delta, gen, history);
        FeedIdsFrom(st, delta, gen, history + delta);
        RunSeparateIffApart(FeedDelta(st, delta, gen).value, deltas[1..], gen, all, history + delta);
      }
    } else {
      assert Apart(history, []);
    }
  }

  // ---- When the ids differ.

  /** The ids of different indices differ after every single assignment of the delta. */
  ghost predicate DistinctThroughoutDelta(st: State, delta: seq<Fragment>, gen: IdSource)
    decreases |delta|
  {
    delta == []
    || var mid := AssignOne(st, delta[0], gen).0;
       IdsDistinct(mid.ids) && DistinctThroughoutDelta(mid, delta[1..], gen)
  }

  ghost predicate DistinctThroughout(st: State, deltas: seq<seq<Fragment>>, gen: IdSource)
    decreases |deltas|
  {
    deltas == []
    || (&& DistinctThroughoutDelta(st, deltas[0], gen)
        && (FeedDelta(st, deltas[0], gen).Some? ==>
              DistinctThroughout(FeedDelta(st, deltas[0], gen).value, deltas[1..], gen)))
  }

  lemma {:induction false} SeparateExactlyDelta(st: State, delta: seq<Fragment>, gen: IdSource)
    requires IdsDistinct(st.ids) && forall i :: 0 <= i < |delta| ==> delta[i].index.Some?
    ensures SeparateAll(st, delta, gen) <==> DistinctThroughoutDelta(st, delta, gen)
    decreases |delta|
  {
    if delta != [] {
      var mid := AssignOne(st, delta[0], gen).0;
      SeparateExactlyOne(st, delta[0], gen);
      if IdsDistinct(mid.ids) {
        SeparateExactlyDelta(mid, delta[1..], gen);
      }
    }
  }

  lemma SeparateExactlyOne(st: State, f: Fragment, gen: IdSource)
    requires IdsDistinct(st.ids) && f.index.Some?
    ensures Separate(st, f, gen) <==> IdsDistinct(AssignOne(st, f, gen).0.ids)
  {
    var k, ids := f.index.value, AssignOne(st, f, gen).0.ids;
    if !Separate(st, f, gen) {
      var j :| j in st.ids && j != k && st.ids[j] == ChosenId(st, f, k, gen);
      assert ids[j] == ids[k];
    }
  }

  /** Two indices share an id at some point of the run exactly when some fragment is given
      an id that is in use for another index. */
  lemma {:induction false} SeparateExactly(st: State, deltas: seq<seq<Fragment>>, gen: IdSource, history: seq<Fragment>)
    requires MergedByIndex(st, history)
    requires forall d :: 0 <= d < |deltas| ==> Indexed(deltas[d])
    ensures RunSeparate(st, deltas, gen) <==> DistinctThroughout(st, deltas, gen)
    decreases |deltas|
  {
    if deltas != [] {
      hide AssignOne, FeedDelta, SeparateAll, DistinctThroughoutDelta, Holds;
      SeparateExactlyDelta(st, deltas[0], gen);
      if SeparateAll(st, deltas[0], gen) {
        FeedKeeps(st, deltas[0], gen, history);
        SeparateExactly(FeedDelta(st, deltas[0], gen).value, deltas[1..], gen, history + deltas[0]);
      }
    }
  }

  /** The exact condition, on the input alone: the ids of any two indices differ at every
      moment of a run if and only if no fragment carries the id another index carried last. */
  lemma IdsDifferExactly(deltas: seq<seq<Fragment>>, gen: IdSource)
    requires forall d :: 0 <= d < |deltas| ==> Indexed(deltas[d])
    requires Fresh(gen, Concat(deltas))
    ensures DistinctThroughout(INITIAL, deltas, gen) <==> Apart([], Concat(deltas))
  {
    RunSeparateIffApart(INITIAL, deltas, gen, Concat(deltas), []);
    SeparateExactly(INITIAL, deltas, gen, []);
  }

  /** When each delta names an index at most once and no fragment carries the id another
      index carried last, every index ends with its own call: its fragments glued in order,
      its last name and type, under its latest id, even if ids were omitted, generated or
      changed midway. */
  lemma EveryIndexHasItsCall(deltas: seq<seq<Fragment>>, gen: IdSource)
    requires forall d :: 0 <= d < |deltas| ==> Indexed(deltas[d])
    requires Apart([], Concat(deltas)) && Fresh(gen, Concat(deltas))
    ensures Run(INITIAL, deltas, gen).Some?
    ensures MergedByIndex(Run(INITIAL, deltas, gen).value, Concat(deltas))
  {
    hide Run, Apart, Fresh, RunSeparate;
    RunSeparateIffApart(INITIAL, deltas, gen, Concat(deltas), []);
    RunKeeps(INITIAL, deltas, gen, []);
    assert [] + Concat(deltas) == Concat(deltas);
  }

  // ---- When two indices merge.

  /** A delta of one fragment. */
  lemma FeedSingle(st: State, f: Fragment, gen: IdSource)
    ensures var (mid, f') := AssignOne(st, f, gen);
      && FeedDelta(st, [f], gen)
         == (if f.func.None? then Some(mid)
             else IncreaseOne(mid, ToolCall(f'.id, f.kind, f.func.value.name, f.func.value.arguments), gen))
      && (f.index.Some? ==> f'.id == mid.ids[f.index.value])
  {
    var (mid, f') := AssignOne(st, f, gen);
    assert [f][1..] == [];
    assert AssignAll(mid, [], gen) == (mid, []);
    assert [f'] + [] == [f'];
    assert AssignAll(st, [f], gen) == (mid, [f']);
    assert [f'][1..] == [];
    if f.func.Some? {
      var parts := [ToolCall(f'.id, f.kind, f.func.value.name, f.func.value.arguments)];
      assert Extract([f']) == parts && parts[1..] == [];
      match IncreaseOne(mid, parts[0], gen)
      case None =>
      case Some(end) => assert IncreaseAll(end, parts[1..], gen) == Some(end);
    } else {
      assert Extract([f']) == [];
    }
  }

  /** An id is generated only where one is needed: for an index seen for the first time without
      one, and for a name that has neither index nor id. */
  lemma GeneratesWhereNeeded(st: State, f: Fragment, gen: IdSource)
    requires FeedDelta(st, [f], gen).Some?
    ensures var needed := match f.index
              case Some(k) => f.id == "" && k !in st.ids
              case None => f.func.Some? && f.id == "" && f.func.value.name != "";
      FeedDelta(st, [f], gen).value.generated == st.generated + if needed then 1 else 0
  {
    FeedSingle(st, f, gen);
    hide FeedDelta, Position, Update;
  }

  // ---- Fragments without an index.

  /** A delta of one fragment without an index: with neither id nor name it goes on with the
      last call, and raises if there is none; otherwise it goes to the first call with its id,
      or to a new one at the end. A name without an id gets an id of its own. */
  lemma UnindexedFragment(st: State, f: Fragment, gen: IdSource)
    requires f.index.None? && f.func.Some?
    ensures var r, func := FeedDelta(st, [f], gen), f.func.value;
      var id := if f.id == "" then gen(st.generated) else f.id;
      if f.id == "" && func.name == "" then
        if st.calls == [] then r == None
        else r.Some? && r.value.ids == st.ids && Continues(st.calls, |st.calls| - 1, f, r.value.calls)
      else
        && r.Some? && r.value.ids == st.ids
        && (forall p :: IsFirst(st.calls, id, p) ==> Continues(st.calls, p, f, r.value.calls))
        && ((forall q :: 0 <= q < |st.calls| ==> st.calls[q].id != id) ==>
              r.value.calls == st.calls + [ToolCall(id, if f.kind == "" then "function" else f.kind, func.name, func.arguments)])
  {
    var func := f.func.value;
    FeedSingle(st, f, gen);
    hide FeedDelta;
    if f.id != "" || func.name != "" {
      var id := if f.id == "" then gen(st.generated) else f.id;
      PartGoesToItsId(st, f, id, gen);
    }
  }

  lemma PartGoesToItsId(st: State, f: Fragment, id: Id, gen: IdSource)
    requires f.func.Some? && (f.id == id || (f.id == "" && f.func.value.name != "" && id == gen(st.generated)))
    ensures var func := f.func.value;
      var r := IncreaseOne(st, ToolCall(f.id, f.kind, func.name, func.arguments), gen);
      && r.Some? && r.value.ids == st.ids
      && (forall p :: IsFirst(st.calls, id, p) ==> Continues(st.calls, p, f, r.value.calls))
      && ((forall q :: 0 <= q < |st.calls| ==> st.calls[q].id != id) ==>
            r.value.calls == st.calls + [ToolCall(id, if f.kind == "" then "function" else f.kind, func.name, func.arguments)])
  {
    var func, p := f.func.value, Position(st.calls, id);
    if p == |st.calls| {
      var whole := ToolCall(id, if f.kind == "" then "function" else f.kind, func.name, func.arguments);
      assert "" + func.arguments == func.arguments;
      assert (st.calls + [ToolCall(id, "function", "", "")])[p := whole] == st.calls + [whole];
    }
  }

  predicate IsFirst(calls: seq<ToolCall>, id: string, p: nat) {
    p < |calls| && calls[p].id == id && forall q :: 0 <= q < p ==> calls[q].id != id
  }

  /** The call at `p` gets the fragment's arguments, and its name and type if there are any;
      the other calls stay as they were. */
  ghost predicate Continues(calls: seq<ToolCall>, p: nat, f: Fragment, calls': seq<ToolCall>)
    requires f.func.Some?
  {
    && p < |calls| == |calls'|
    && (forall q :: 0 <= q < |calls| && q != p ==> calls'[q] == calls[q])
    && calls'[p].id == calls[p].id
    && calls'[p].arguments == calls[p].arguments + f.func.value.arguments
    && calls'[p].name == (if f.func.value.name == "" then calls[p].name else f.func.value.name)
    && calls'[p].kind == (if f.kind == "" then calls[p].kind else f.kind)
  }

  /** A fragment that can only go on with an earlier call. */
  predicate Nameless(f: Fragment) {
    f.func.Some? && f.index.None? && f.id == "" && f.func.value.name == ""
  }

  /** The first fragment with a function is a nameless one. */
  predicate StartsNameless(fragments: seq<Fragment>) {
    fragments != [] && (Nameless(fragments[0]) || (fragments[0].func.None? && StartsNameless(fragments[1..])))
  }

  predicate AnyFunction(fragments: seq<Fragment>) {
    exists f :: f in fragments && f.func.Some?
  }

  lemma AssignOneKeepsShape(st: State, f: Fragment, gen: IdSource)
    ensures var (st', f') := AssignOne(st, f, gen);
      && (st'.calls == [] <==> st.calls == [])
      && f'.func == f.func
      && (f.func.Some? && f'.id == "" && f.func.value.name == "" <==> Nameless(f))
  {
    hide Position;
  }

  /** Merging the labelled fragments `parts` of `delta` fails exactly when there is no call yet
      and the first to have a function is nameless. */
  lemma {:induction false} IncreaseRaises(st: State, delta: seq<Fragment>, labelled: seq<Fragment>, gen: IdSource)
    requires |labelled| == |delta|
    requires forall i :: 0 <= i < |delta| ==>
      && labelled[i].func == delta[i].func
      && (delta[i].func.Some? && labelled[i].id == "" && delta[i].func.value.name == "" <==> Nameless(delta[i]))
    ensures var r := IncreaseAll(st, Extract(labelled), gen);
      && (r.None? <==> st.calls == [] && StartsNameless(delta))
      && (r.Some? ==> (r.value.calls == [] <==> st.calls == [] && !AnyFunction(delta)))
    decreases |delta|
  {
    if delta != [] {
      hide Update, Position;
      var f := labelled[0];
      assert delta == [delta[0]] + delta[1..];
      assert AnyFunction(delta) <==> delta[0].func.Some? || AnyFunction(delta[1..]);
      if f.func.Some? {
        var part := ToolCall(f.id, f.kind, f.func.value.name, f.func.value.arguments);
        assert Extract(labelled)[0] == part && Extract(labelled)[1..] == Extract(labelled[1..]);
        if IncreaseOne(st, part, gen).Some? {
          IncreaseRaises(IncreaseOne(st, part, gen).value, delta[1..], labelled[1..], gen);
        }
      } else {
        assert Extract(labelled) == Extract(labelled[1..]);
        IncreaseRaises(st, delta[1..], labelled[1..], gen);
      }
    }
  }

  lemma {:induction false} AssignAllKeepsShape(st: State, delta: seq<Fragment>, gen: IdSource)
    ensures var (end, labelled) := AssignAll(st, delta, gen);
      && (end.calls == [] <==> st.calls == [])
      && |labelled| == |delta|
      && (forall i :: 0 <= i < |delta| ==>
            && labelled[i].func == delta[i].func
            && (delta[i].func.Some? && labelled[i].id == "" && delta[i].func.value.name == "" <==> Nameless(delta[i])))
    decreases |delta|
  {
    hide AssignOne;
    if delta != [] {
      AssignOneKeepsShape(st, delta[0], gen);
      AssignAllKeepsShape(AssignOne(st, delta[0], gen).0, delta[1..], gen);
    }
  }

  lemma {:induction false} StartsNamelessJoins(a: seq<Fragment>, b: seq<Fragment>)
    ensures StartsNameless(a + b) <==> StartsNameless(a) || (!AnyFunction(a) && StartsNameless(b))
  {
    if a == [] {
      assert a + b == b;
    } else {
      assert (a + b)[1..] == a[1..] + b;
      assert a == [a[0]] + a[1..];
      assert AnyFunction(a) <==> a[0].func.Some? || AnyFunction(a[1..]);
      StartsNamelessJoins(a[1..], b);
    }
  }

  lemma {:induction false} RunRaises(st: State, deltas: seq<seq<Fragment>>, gen: IdSource)
    ensures Run(st, deltas, gen).None? <==> st.calls == [] && StartsNameless(Concat(deltas))
    decreases |deltas|
  {
    hide AssignAll, IncreaseAll, StartsNameless, AnyFunction;
    if deltas == [] {
      assert !StartsNameless([]) by { NothingStarts(); }
    } else {
      var (mid, labelled) := AssignAll(st, deltas[0], gen);
      AssignAllKeepsShape(st, deltas[0], gen);
      IncreaseRaises(mid, deltas[0], labelled, gen);
      StartsNamelessJoins(deltas[0], Concat(deltas[1..]));
      if FeedDelta(st, deltas[0], gen).Some? {
        RunRaises(FeedDelta(st, deltas[0], gen).value, deltas[1..], gen);
      }
    }
  }

  lemma NothingStarts()
    ensures !StartsNameless([])
  {
  }

  /** Exactly when merging raises, on the input alone: when the first fragment of the stream
      that has a function has no index, no id and no name. */
  lemma RaisesExactly(deltas: seq<seq<Fragment>>, gen: IdSource)
    ensures Run(INITIAL, deltas, gen).None? <==> StartsNameless(Concat(deltas))
  {
    RunRaises(INITIAL, deltas, gen);
  }

  /** Sharing an id does merge: from any state in which every index has its own call, a new
      index that carries the id of an index with a call adds no call of its own, and that call
      goes on with the new index's arguments. */
  lemma SharedIdMerges(st: State, history: seq<Fragment>, f: Fragment, j: int, gen: IdSource)
    requires MergedByIndex(st, history)
    requires f.index.Some? && f.index.value !in st.ids && f.func.Some?
    requires j in st.ids && HasFunction(history, j) && f.id == st.ids[j]
    ensures var r := FeedDelta(st, [f], gen);
      var p := Position(st.calls, f.id);
      && r.Some? && p < |st.calls| == |r.value.calls|
      && r.value.calls[p].id == f.id
      && r.value.calls[p].arguments == ArgumentsOf(history, j) + f.func.value.arguments
      && (forall q :: 0 <= q < |st.calls| && q != p ==> r.value.calls[q] == st.calls[q])
  {
    hide HasFunction, ArgumentsOf, NameOf, KindOf;
    assert Holds(st.calls, st.ids[j], history, j);
    FeedSingle(st, f, gen);
  }

  // ---- Exactly when every index has its own call, one fragment at a time.

  /** Every index that sent a function has its call, and no two have the same. */
  ghost predicate OwnCalls(st: State, history: seq<Fragment>) {
    && (forall k :: HasFunction(history, k) ==> k in st.ids && Holds(st.calls, st.ids[k], history, k))
    && (forall j, k :: HasFunction(history, j) && HasFunction(history, k) && j != k && j in st.ids && k in st.ids
          ==> st.ids[j] != st.ids[k])
  }

  /** And there are no other calls. */
  ghost predicate OnlyOwnCalls(st: State, history: seq<Fragment>) {
    && OwnCalls(st, history)
    && CallsDistinct(st.calls)
    && (forall p :: 0 <= p < |st.calls| ==> Owned(st, history, st.calls[p].id))
    && (forall i :: 0 <= i < |history| ==> history[i].index.Some? && history[i].index.value in st.ids)
  }

  ghost predicate Owned(st: State, history: seq<Fragment>, id: string) {
    exists k :: k in st.ids && HasFunction(history, k) && st.ids[k] == id
  }

  /** `f` would use the call of another index: by being given its id, or by renaming it, its
      own index having shared that id so far. */
  ghost predicate Collides(st: State, f: Fragment, gen: IdSource, history: seq<Fragment>)
    requires f.index.Some?
  {
    var k := f.index.value;
    var id := ChosenId(st, f, k, gen);
    exists j :: j != k && j in st.ids && HasFunction(history, j) &&
      (|| (st.ids[j] == id && (HasFunction(history, k) || f.func.Some?))
       || (k in st.ids && st.ids[k] != id && st.ids[j] == st.ids[k]))
  }

  lemma CallOf(st: State, history: seq<Fragment>, k: int)
    requires OnlyOwnCalls(st, history) && HasFunction(history, k)
    ensures k in st.ids && Position(st.calls, st.ids[k]) < |st.calls|
    ensures st.calls[Position(st.calls, st.ids[k])]
         == ToolCall(st.ids[k], KindOf(history, k), NameOf(history, k), ArgumentsOf(history, k))
  {
    hide HasFunction;
  }

  lemma NoCallOf(st: State, history: seq<Fragment>, id: string)
    requires OnlyOwnCalls(st, history) && !Owned(st, history, id)
    ensures Position(st.calls, id) == |st.calls|
  {
    hide Owned, OwnCalls;
    forall q | 0 <= q < |st.calls|
      ensures st.calls[q].id != id
    {
      assert Owned(st, history, st.calls[q].id);
    }
  }

  /** Labelling without a collision renames at most the index's own call. */
  lemma LabelKeepsOwn(st: State, f: Fragment, gen: IdSource, history: seq<Fragment>)
    requires OnlyOwnCalls(st, history) && f.index.Some? && !Collides(st, f, gen, history)
    ensures var mid := AssignOne(st, f, gen).0;
      var k := f.index.value;
      && (forall p :: 0 <= p < |mid.calls| ==> Owned(mid, history, mid.calls[p].id))
      && CallsDistinct(mid.calls)
      && (forall j :: HasFunction(history, j) ==> j in mid.ids && Holds(mid.calls, mid.ids[j], history, j))
      && (forall j :: j in mid.ids && j != k && HasFunction(history, j) && (HasFunction(history, k) || f.func.Some?)
            ==> mid.ids[j] != mid.ids[k])
  {
    hide HasFunction, ArgumentsOf, NameOf, KindOf, Owned, Holds;
    var k := f.index.value;
    var mid := AssignOne(st, f, gen).0;
    var id := mid.ids[k];
    RenameIsOwn(st, f, gen, history);
    forall j | HasFunction(history, j)
      ensures j in mid.ids && Holds(mid.calls, mid.ids[j], history, j)
    {
      LabelHolds(st, f, gen, history, j);
    }
    forall p | 0 <= p < |mid.calls|
      ensures Owned(mid, history, mid.calls[p].id)
    {
      LabelOwned(st, f, gen, history, p);
    }
  }

  /** What the renaming does to the calls. */
  lemma RenameIsOwn(st: State, f: Fragment, gen: IdSource, history: seq<Fragment>)
    requires OnlyOwnCalls(st, history) && f.index.Some? && !Collides(st, f, gen, history)
    ensures var mid := AssignOne(st, f, gen).0;
      var k := f.index.value;
      && mid.calls == (if HasFunction(history, k) && k in st.ids
                       then st.calls[Position(st.calls, st.ids[k]) := st.calls[Position(st.calls, st.ids[k])].(id := mid.ids[k])]
                       else st.calls)
      && (HasFunction(history, k) ==> Position(st.calls, st.ids[k]) < |st.calls|)
      && CallsDistinct(mid.calls)
  {
    hide HasFunction, ArgumentsOf, NameOf, KindOf, Holds;
    var k := f.index.value;
    var id := ChosenId(st, f, k, gen);
    if HasFunction(history, k) {
      CallOf(st, history, k);
      forall p | 0 <= p < |st.calls| && st.calls[p].id == id
        ensures st.ids[k] == id
      {
        assert Owned(st, history, st.calls[p].id);
      }
    } else if k in st.ids {
      if Owned(st, history, st.ids[k]) {
        assert st.ids[k] == id;
        var p := Position(st.calls, id);
        assert p < |st.calls| ==> st.calls[p := st.calls[p].(id := id)] == st.calls;
      } else {
        NoCallOf(st, history, st.ids[k]);
      }
    }
  }

  lemma LabelHolds(st: State, f: Fragment, gen: IdSource, history: seq<Fragment>, j: int)
    requires OnlyOwnCalls(st, history) && f.index.Some? && !Collides(st, f, gen, history) && HasFunction(history, j)
    ensures var mid := AssignOne(st, f, gen).0; j in mid.ids && Holds(mid.calls, mid.ids[j], history, j)
  {
    hide HasFunction, ArgumentsOf, NameOf, KindOf, Owned;
    RenameIsOwn(st, f, gen, history);
    CallOf(st, history, j);
    var mid := AssignOne(st, f, gen).0;
    var p := Position(st.calls, st.ids[j]);
    hide AssignOne, Position;
    assert mid.calls[p].id == mid.ids[j];
    PositionIs(mid.calls, mid.ids[j], p);
  }

  lemma LabelOwned(st: State, f: Fragment, gen: IdSource, history: seq<Fragment>, p: nat)
    requires OnlyOwnCalls(st, history) && f.index.Some? && !Collides(st, f, gen, history)
    requires p < |AssignOne(st, f, gen).0.calls|
    ensures var mid := AssignOne(st, f, gen).0; Owned(mid, history, mid.calls[p].id)
  {
    hide HasFunction, ArgumentsOf, NameOf, KindOf, Holds;
    RenameIsOwn(st, f, gen, history);
    var mid, k := AssignOne(st, f, gen).0, f.index.value;
    assert Owned(st, history, st.calls[p].id);
    var j :| j in st.ids && HasFunction(history, j) && st.ids[j] == st.calls[p].id;
    if j == k {
      CallOf(st, history, k);
      assert mid.ids[k] == mid.calls[p].id;
    } else {
      assert mid.ids[j] == mid.calls[p].id;
    }
  }

  /** Between labelling and merging one fragment. */
  ghost predicate Ready(mid: State, f: Fragment, history: seq<Fragment>) {
    && f.index.Some? && f.index.value in mid.ids
    && CallsDistinct(mid.calls)
    && (forall p :: 0 <= p < |mid.calls| ==> Owned(mid, history, mid.calls[p].id))
    && (forall j :: HasFunction(history, j) ==> j in mid.ids && Holds(mid.calls, mid.ids[j], history, j))
    && (forall i, j | i in mid.ids && j in mid.ids && i != j && HasFunction(history, j)
          && (HasFunction(history, i) || (i == f.index.value && f.func.Some?)) :: mid.ids[i] != mid.ids[j])
    && (forall i :: 0 <= i < |history| ==> history[i].index.Some? && history[i].index.value in mid.ids)
  }

  lemma LabelledIsReady(st: State, f: Fragment, gen: IdSource, history: seq<Fragment>)
    requires OnlyOwnCalls(st, history) && f.index.Some? && !Collides(st, f, gen, history)
    ensures Ready(AssignOne(st, f, gen).0, f, history)
  {
    hide HasFunction, Owned, Holds;
    LabelKeepsOwn(st, f, gen, history);
  }

  lemma ReadyHolds(mid: State, f: Fragment, history: seq<Fragment>)
    requires Ready(mid, f, history) && f.func.Some?
    ensures Holds(mid.calls, mid.ids[f.index.value], history, f.index.value)
  {
    hide HasFunction;
    var k := f.index.value;
    if !HasFunction(history, k) {
      forall q | 0 <= q < |mid.calls|
        ensures mid.calls[q].id != mid.ids[k]
      {
        assert Owned(mid, history, mid.calls[q].id);
      }
    }
  }

  lemma MergeKeepsOwn(mid: State, f: Fragment, gen: IdSource, history: seq<Fragment>)
    requires Ready(mid, f, history) && f.func.Some?
    ensures var r := IncreaseOne(mid, PartOf(f, mid.ids[f.index.value]), gen);
      r.Some? && OnlyOwnCalls(r.value, history + [f])
  {
    hide HasFunction, Holds, IsFor;
    var k, longer := f.index.value, history + [f];
    var end := IncreaseOne(mid, PartOf(f, mid.ids[k]), gen).value;
    HasFunctionSnoc(history, f);
    IsForItself(f);
    forall j | HasFunction(longer, j)
      ensures j in end.ids && Holds(end.calls, end.ids[j], longer, j)
    {
      ReadyHolds(mid, f, history);
      IsForOther(f, j);
      IncreaseHolds(mid, f, gen, history, j);
    }
    forall i | i != k
      ensures HasFunction(longer, i) <==> HasFunction(history, i)
    {
      IsForOther(f, i);
    }
    forall p | 0 <= p < |end.calls|
      ensures Owned(end, longer, end.calls[p].id)
    {
      if p < |mid.calls| {
        assert Owned(mid, history, mid.calls[p].id);
        var j :| j in mid.ids && HasFunction(history, j) && mid.ids[j] == mid.calls[p].id;
        assert HasFunction(longer, j) && end.ids[j] == end.calls[p].id;
      } else {
        assert HasFunction(longer, k) && end.ids[k] == end.calls[p].id;
      }
    }
  }

  lemma IsForItself(f: Fragment)
    ensures f.index.Some? && f.func.Some? ==> IsFor(f, f.index.value)
  {
  }

  lemma IsForOther(f: Fragment, j: int)
    ensures f.index != Some(j) || f.func.None? ==> !IsFor(f, j)
  {
  }

  lemma SkipKeepsOwn(mid: State, f: Fragment, history: seq<Fragment>)
    requires Ready(mid, f, history) && f.func.None?
    ensures OnlyOwnCalls(mid, history + [f])
  {
    hide Position;
    var longer := history + [f];
    assert longer[..|history|] == history;
    HasFunctionSnoc(history, f);
    forall j
      ensures HasFunction(longer, j) <==> HasFunction(history, j)
    {
      IsForOther(f, j);
    }
    hide HasFunction;
    forall j | HasFunction(longer, j)
      ensures j in mid.ids && Holds(mid.calls, mid.ids[j], longer, j)
    {
      assert Holds(mid.calls, mid.ids[j], history, j);
    }
    forall p | 0 <= p < |mid.calls|
      ensures Owned(mid, longer, mid.calls[p].id)
    {
      assert Owned(mid, history, mid.calls[p].id);
      var j :| j in mid.ids && HasFunction(history, j) && mid.ids[j] == mid.calls[p].id;
      assert HasFunction(longer, j);
    }
  }

  /** One fragment without a collision keeps every call its index's own. */
  lemma StepKeepsOwn(st: State, f: Fragment, gen: IdSource, history: seq<Fragment>)
    requires OnlyOwnCalls(st, history) && f.index.Some? && !Collides(st, f, gen, history)
    ensures FeedDelta(st, [f], gen).Some?
    ensures OnlyOwnCalls(FeedDelta(st, [f], gen).value, history + [f])
  {
    hide FeedDelta, AssignOne, IncreaseOne, Collides, OnlyOwnCalls, Ready;
    var mid := AssignOne(st, f, gen).0;
    FeedSingle(st, f, gen);
    LabelledIsReady(st, f, gen, history);
    if f.func.Some? {
      MergeKeepsOwn(mid, f, gen, history);
    } else {
      SkipKeepsOwn(mid, f, history);
    }
  }

  /** A collision takes some index's call away from it. */
  lemma CollisionBreaksOwn(st: State, f: Fragment, gen: IdSource, history: seq<Fragment>)
    requires OnlyOwnCalls(st, history) && f.index.Some? && Collides(st, f, gen, history)
    ensures FeedDelta(st, [f], gen).Some?
    ensures !OwnCalls(FeedDelta(st, [f], gen).value, history + [f])
  {
    hide HasFunction, IsFor, ArgumentsOf, NameOf, KindOf;
    var k, mid := f.index.value, AssignOne(st, f, gen).0;
    var longer := history + [f];
    FeedSingle(st, f, gen);
    HasFunctionSnoc(history, f);
    IsForItself(f);
    var end := FeedDelta(st, [f], gen).value;
    hide FeedDelta;
    if j :| j != k && j in st.ids && HasFunction(history, j) && st.ids[j] == mid.ids[k]
            && (HasFunction(history, k) || f.func.Some?) {
      assert HasFunction(longer, j) && HasFunction(longer, k) && end.ids[j] == end.ids[k];
    } else {
      var j :| j != k && j in st.ids && HasFunction(history, j) && k in st.ids && st.ids[k] != mid.ids[k]
               && st.ids[j] == st.ids[k];
      RenamedAway(st, f, gen, history, j);
      assert HasFunction(longer, j) && !Holds(end.calls, end.ids[j], longer, j);
    }
  }

  lemma RenamedAway(st: State, f: Fragment, gen: IdSource, history: seq<Fragment>, j: int)
    requires OnlyOwnCalls(st, history) && f.index.Some? && HasFunction(history, j)
    requires var k := f.index.value;
      j != k && j in st.ids && k in st.ids && st.ids[j] == st.ids[k] && st.ids[k] != ChosenId(st, f, k, gen)
    ensures var mid := AssignOne(st, f, gen).0;
      && j in mid.ids && mid.ids[j] == st.ids[j]
      && Position(mid.calls, mid.ids[j]) == |mid.calls|
      && (f.func.Some? ==>
            var end := IncreaseOne(mid, PartOf(f, mid.ids[f.index.value]), gen).value;
            Position(end.calls, mid.ids[j]) == |end.calls|)
  {
    hide HasFunction, ArgumentsOf, NameOf, KindOf;
    CallOf(st, history, j);
    var mid := AssignOne(st, f, gen).0;
    var p := Position(st.calls, st.ids[j]);
    assert mid.calls == st.calls[p := st.calls[p].(id := mid.ids[f.index.value])];
    forall q | 0 <= q < |mid.calls|
      ensures mid.calls[q].id != mid.ids[j]
    {
      assert q != p ==> st.calls[q].id != st.calls[p].id;
    }
  }

  /** The same in terms of the input: some index with a function carried last the id that
      `f`'s index carries last with `f`, or the one it carried last before `f` changes it. */
  predicate Takes(history: seq<Fragment>, f: Fragment, j: int) {
    match f.index
    case None => false
    case Some(k) =>
      && j != k && HasFunction(history, j) && Carried(history, j) != ""
      && (|| (Carried(history, j) == Carried(history + [f], k) && (HasFunction(history, k) || f.func.Some?))
          || (f.id != "" && f.id != Carried(history, k) && Carried(history, j) == Carried(history, k)))
  }

  ghost predicate Collision(history: seq<Fragment>, f: Fragment) {
    exists j :: Takes(history, f, j)
  }

  lemma CollidesIffCollision(st: State, f: Fragment, gen: IdSource, history: seq<Fragment>, all: seq<Fragment>)
    requires OnlyOwnCalls(st, history) && IdsFrom(st, history, gen) && Fresh(gen, all)
    requires (forall h <- history :: h in all) && f in all && f.index.Some?
    ensures Collides(st, f, gen, history) <==> Collision(history, f)
  {
    hide HasFunction, IsFor, Holds, Carried, IdsFrom, Fresh, CallsDistinct, Owned;
    var k, mid, longer := f.index.value, AssignOne(st, f, gen).0, history + [f];
    FreshIsInjective(gen, all);
    AssignIdsFrom(st, f, gen, history);
    forall j | j != k && j in st.ids
      ensures mid.ids[j] == mid.ids[k] <==> Carried(history, j) == Carried(longer, k) != ""
      ensures k in st.ids ==> (st.ids[j] == st.ids[k] <==> Carried(history, j) == Carried(history, k) != "")
    {
      CarriedSnoc(history, f, j);
      SameIdExactly(mid, longer, gen, all, j, k);
      if k in st.ids {
        SameIdExactly(st, history, gen, all, j, k);
      }
    }
    CarriedMeansKnown(st, history, gen, k);
    forall j | j != k && HasFunction(history, j)
      ensures j in st.ids
      ensures Takes(history, f, j) <==>
        || (st.ids[j] == mid.ids[k] && (HasFunction(history, k) || f.func.Some?))
        || (k in st.ids && st.ids[k] != mid.ids[k] && st.ids[j] == st.ids[k])
    {
      if k in st.ids && Carried(history, k) != "" {
        KnownId(st, history, gen, k);
      }
    }
    if Collision(history, f) {
      var j :| Takes(history, f, j);
    }
  }

  lemma CarriedMeansKnown(st: State, history: seq<Fragment>, gen: IdSource, k: int)
    requires IdsFrom(st, history, gen)
    ensures Carried(history, k) != "" ==> k in st.ids
  {
    hide Carried;
  }

  lemma KnownId(st: State, history: seq<Fragment>, gen: IdSource, k: int)
    requires IdsFrom(st, history, gen) && k in st.ids
    ensures Carried(history, k) != "" ==> st.ids[k] == Carried(history, k)
  {
    hide Carried;
  }

  /** The state after a stream of one-fragment deltas. */
  function After(fragments: seq<Fragment>, gen: IdSource): Option<State> {
    Run(INITIAL, Singles(fragments), gen)
  }

  function Singles(fragments: seq<Fragment>): (deltas: seq<seq<Fragment>>) {
    if fragments == [] then [] else Singles(fragments[..|fragments| - 1]) + [[fragments[|fragments| - 1]]]
  }

  lemma {:induction false} RunSnoc(st: State, deltas: seq<seq<Fragment>>, delta: seq<Fragment>, gen: IdSource)
    ensures Run(st, deltas + [delta], gen)
         == match Run(st, deltas, gen) case None => None case Some(mid) => FeedDelta(mid, delta, gen)
    decreases |deltas|
  {
    hide FeedDelta;
    if deltas == [] {
      assert deltas + [delta] == [delta] && [delta][1..] == [];
      if FeedDelta(st, delta, gen).Some? {
        assert Run(FeedDelta(st, delta, gen).value, [], gen) == FeedDelta(st, delta, gen);
      }
    } else {
      assert (deltas + [delta])[1..] == deltas[1..] + [delta];
      if FeedDelta(st, deltas[0], gen).Some? {
        RunSnoc(FeedDelta(st, deltas[0], gen).value, deltas[1..], delta, gen);
      }
    }
  }

  /** No fragment collides with those before it. */
  ghost predicate NoCollision(fragments: seq<Fragment>) {
    forall n :: 0 <= n < |fragments| ==> !Collision(fragments[..n], fragments[n])
  }

  /** After every fragment each index that sent a function has its own call. */
  ghost predicate OwnCallsThroughout(fragments: seq<Fragment>, gen: IdSource) {
    forall n :: 0 <= n <= |fragments| ==> OwnCallsAfter(fragments[..n], gen)
  }

  ghost predicate OwnCallsAfter(fragments: seq<Fragment>, gen: IdSource) {
    After(fragments, gen).Some? && OwnCalls(After(fragments, gen).value, fragments)
  }

  lemma AfterSnoc(fragments: seq<Fragment>, f: Fragment, gen: IdSource)
    ensures After(fragments + [f], gen)
         == match After(fragments, gen) case None => None case Some(st) => FeedDelta(st, [f], gen)
  {
    hide Run, FeedDelta;
    assert (fragments + [f])[..|fragments|] == fragments;
    RunSnoc(INITIAL, Singles(fragments), [f], gen);
  }

  lemma NoFragments(gen: IdSource)
    ensures After([], gen) == Some(INITIAL)
    ensures OnlyOwnCalls(INITIAL, []) && IdsFrom(INITIAL, [], gen)
  {
  }

  lemma {:induction false} NoCollisionKeepsOwn(fragments: seq<Fragment>, gen: IdSource, all: seq<Fragment>)
    requires Fresh(gen, all) && (forall f <- fragments :: f in all && f.index.Some?) && NoCollision(fragments)
    ensures var r := After(fragments, gen);
      r.Some? && OnlyOwnCalls(r.value, fragments) && IdsFrom(r.value, fragments, gen)
  {
    hide OnlyOwnCalls, IdsFrom, Collides, Collision, FeedDelta, AssignOne, After, Fresh;
    if fragments == [] {
      NoFragments(gen);
    } else {
      var n := |fragments| - 1;
      var before, f := fragments[..n], fragments[n];
      assert fragments == before + [f];
      assert forall m :: 0 <= m < n ==> before[..m] == fragments[..m] && before[m] == fragments[m];
      NoCollisionKeepsOwn(before, gen, all);
      var st := After(before, gen).value;
      AfterSnoc(before, f, gen);
      CollidesIffCollision(st, f, gen, before, all);
      StepKeepsOwn(st, f, gen, before);
      OneFragmentIdsFrom(st, f, gen, before, all);
    }
  }

  lemma OneFragmentIdsFrom(st: State, f: Fragment, gen: IdSource, history: seq<Fragment>, all: seq<Fragment>)
    requires IdsFrom(st, history, gen) && Fresh(gen, all) && f.index.Some? && FeedDelta(st, [f], gen).Some?
    ensures IdsFrom(FeedDelta(st, [f], gen).value, history + [f], gen)
  {
    hide IdsFrom, Fresh, FeedDelta, AssignAll;
    FreshIsInjective(gen, all);
    AssignAllIdsFrom(st, [f], gen, history);
    FeedIdsFrom(st, [f], gen, history + [f]);
  }

  /** Exactly when tool calls stay apart, on the input alone: over a stream that names one
      index at a time, every index has its own call at every moment if and only if no fragment
      collides with another index's call. */
  lemma OwnCallsExactly(fragments: seq<Fragment>, gen: IdSource)
    requires (forall f <- fragments :: f.index.Some?) && Fresh(gen, fragments)
    ensures OwnCallsThroughout(fragments, gen) <==> NoCollision(fragments)
  {
    hide OnlyOwnCalls, IdsFrom, Collides, Collision, FeedDelta, AssignOne, After, Fresh;
    if NoCollision(fragments) {
      forall n | 0 <= n <= |fragments|
        ensures OwnCallsAfter(fragments[..n], gen)
      {
        NoCollisionBefore(fragments, n);
        NoCollisionKeepsOwn(fragments[..n], gen, fragments);
        OnlyOwnIsOwn(After(fragments[..n], gen).value, fragments[..n]);
      }
    } else {
      var n := FirstCollision(fragments);
      var before, f := fragments[..n], fragments[n];
      NoCollisionKeepsOwn(before, gen, fragments);
      var st := After(before, gen).value;
      CollidesIffCollision(st, f, gen, before, fragments);
      CollisionBreaksOwn(st, f, gen, before);
      AfterSnoc(before, f, gen);
      assert fragments[..n + 1] == before + [f];
      assert !OwnCallsAfter(fragments[..n + 1], gen);
    }
  }

  lemma OnlyOwnIsOwn(st: State, history: seq<Fragment>)
    requires OnlyOwnCalls(st, history)
    ensures OwnCalls(st, history)
  {
  }

  lemma NoCollisionBefore(fragments: seq<Fragment>, n: nat)
    requires n <= |fragments| && forall m :: 0 <= m < n ==> !Collision(fragments[..m], fragments[m])
    ensures NoCollision(fragments[..n])
  {
    hide Collision;
    var before := fragments[..n];
    assert forall m :: 0 <= m < n ==> before[..m] == fragments[..m] && before[m] == fragments[m];
  }

  lemma FirstCollision(fragments: seq<Fragment>) returns (n: nat)
    requires !NoCollision(fragments)
    ensures n < |fragments| && Collision(fragments[..n], fragments[n]) && NoCollision(fragments[..n])
  {
    hide Collision;
    n := 0;
    while !Collision(fragments[..n], fragments[n])
      invariant n < |fragments|
      invariant forall m :: 0 <= m < n ==> !Collision(fragments[..m], fragments[m])
      decreases |fragments| - n
    {
      n := n + 1;
    }
    NoCollisionBefore(fragments, n);
  }
}
