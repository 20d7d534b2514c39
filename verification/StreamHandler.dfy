// The loop that turns decoded stream objects into result chunks: reasoning wrapped in
// think tags, tool calls merged on the side, chunk indices counted.
module StreamHandler {
  import opened Text
  import ToolCalls

  /** A chat delta; absent and null fields are empty. */
  datatype Delta = Delta(
    content: string,
    reasoningContent: string,
    reasoning: string,
    toolCalls: seq<ToolCalls.Fragment>,
    functionCall: Option<ToolCalls.Function>)

  datatype Body = Chat(delta: Delta) | Completion(text: string) | Neither

  /** A usage report: counts by name, some of them null; empty when there is none. */
  type Report = map<string, Option<int>>

  /** One decoded object of the stream. */
  datatype Item =
    | ProviderError
    | NoChoices(usage: Report)
    | Choice(usage: Report, finish: Option<string>, body: Body)

  /** The `function_calling_type` credential. */
  datatype Calling = NoCall | ToolCall | FunctionCall

  datatype Chunk = Chunk(index: nat, content: string)

  const OPEN_TAG := "<think>\n"
  const CLOSE_TAG := "\n</think>"

  function Reasoning(d: Delta): string {
    if d.reasoningContent != "" then d.reasoningContent else d.reasoning
  }

  predicate CallsTool(d: Delta) {
    d.toolCalls != [] || d.functionCall.Some?
  }

  /** `_wrap_thinking_by_reasoning_content`. */
  function WrapThinking(d: Delta, isReasoning: bool): (string, bool) {
    if Reasoning(d) != "" then
      var output := (if isReasoning then "" else OPEN_TAG) + Reasoning(d);
      if d.content != "" || CallsTool(d) then (output + CLOSE_TAG + d.content, false)
      else (output, true)
    else if isReasoning then (CLOSE_TAG + d.content, false)
    else (d.content, false)
  }

  /** The fragments a delta contributes under the configured calling type. */
  function Fragments(d: Delta, calling: Calling): seq<ToolCalls.Fragment> {
    match calling
    case NoCall => []
    case ToolCall => d.toolCalls
    case FunctionCall => [ToolCalls.Fragment(None, "tool_call_id", "function", d.functionCall)]
  }

  /** The loop's variables. */
  datatype Progress = Progress(
    chunkIndex: nat,
    content: string,
    isReasoning: bool,
    finish: Option<string>,
    merged: ToolCalls.State,
    usage: map<string, int>)

  const START := Progress(0, "", false, None, ToolCalls.INITIAL, map[])

  /** The counts of a report go over those known so far; its nulls change nothing. */
  function MergeUsage(usage: map<string, int>, report: Report): map<string, int> {
    usage + map k | k in report && report[k].Some? :: report[k].value
  }

  /** The text a delta adds to the answer. Empty heartbeats leave an open block alone. */
  function DeltaText(d: Delta, isReasoning: bool): (string, bool) {
    if isReasoning && Reasoning(d) == "" && d.content == "" && !CallsTool(d) then ("", true)
    else WrapThinking(d, isReasoning)
  }

  function Emit(p: Progress, text: string): (Progress, seq<Chunk>) {
    if text == "" then (p, [])
    else (p.(chunkIndex := p.chunkIndex + 1, content := p.content + text), [Chunk(p.chunkIndex, text)])
  }

  /** One pass through the loop; nothing when it raises. */
  function Advance(p: Progress, item: Item, calling: Calling, gen: ToolCalls.IdSource): Option<(Progress, seq<Chunk>)> {
    match item
    case ProviderError => None
    case NoChoices(report) => Some((p.(usage := MergeUsage(p.usage, report)), []))
    case Choice(report, finish, body) =>
      var p := p.(usage := MergeUsage(p.usage, report), chunkIndex := p.chunkIndex + 1,
                  finish := if finish.Some? then finish else p.finish);
      match body
      case Neither => Some((p, []))
      case Completion(text) => Some(Emit(p, text))
      case Chat(d) =>
        var (text, isReasoning) := DeltaText(d, p.isReasoning);
        match ToolCalls.FeedDelta(p.merged, Fragments(d, calling), gen)
        case None => None
        case Some(merged) => Some(Emit(p.(isReasoning := isReasoning, merged := merged), text))
  }

  /** What the consumer sees: the chunks, and whether the stream finished normally with a
      last chunk that carries the tool calls. */
  datatype Outcome = Outcome(chunks: seq<Chunk>, end: Option<Final>)
  datatype Final = Final(index: nat, calls: seq<ToolCalls.ToolCall>, finish: Option<string>, content: string,
                         usage: map<string, int>)

  function Finish(p: Progress): Outcome {
    var (p', closing) := Emit(p, if p.isReasoning then CLOSE_TAG else "");
    Outcome(closing, Some(Final(p'.chunkIndex, p'.merged.calls, p'.finish, p'.content, p'.usage)))
  }

  function After(chunks: seq<Chunk>, rest: Outcome): Outcome {
    rest.(chunks := chunks + rest.chunks)
  }

  function Handle(p: Progress, items: seq<Item>, calling: Calling, gen: ToolCalls.IdSource): Outcome
    decreases |items|
  {
    if items == [] then Finish(p)
    else match Advance(p, items[0], calling, gen)
      case None => Outcome([], None)
      case Some((p', chunks)) => After(chunks, Handle(p', items[1..], calling, gen))
  }

  lemma AfterTwice(a: seq<Chunk>, b: seq<Chunk>, rest: Outcome)
    ensures After(a, After(b, rest)) == After(a + b, rest)
  {
    assert a + (b + rest.chunks) == a + b + rest.chunks;
  }

  /** The local variables of `_handle_generate_stream_response`. */
  class Handler {
    var chunkIndex: nat
    var fullContent: string
    var isReasoning: bool
    var finish: Option<string>
    var usage: map<string, int>
    const merger: ToolCalls.Merger
    const calling: Calling

    function Now(): Progress
      reads this, merger
    {
      Progress(chunkIndex, fullContent, isReasoning, finish, merger.Now(), usage)
    }

    constructor (calling: Calling, gen: ToolCalls.IdSource)
      ensures fresh(merger) && merger.gen == gen && this.calling == calling && Now() == START
    {
      chunkIndex, fullContent, isReasoning, finish, usage := 0, "", false, None, map[];
      merger := new ToolCalls.Merger(gen);
      this.calling := calling;
    }

    /** Yields `text` as a chunk unless it is empty. */
    method Yield(text: string) returns (chunks: seq<Chunk>)
      modifies this`chunkIndex, this`fullContent
      ensures (Now(), chunks) == Emit(old(Now()), text)
    {
      chunks := [];
      if text != "" {
        chunks := [Chunk(chunkIndex, text)];
        fullContent := fullContent + text;
        chunkIndex := chunkIndex + 1;
      }
    }

    /** The loop body for a choice with a delta. */
    method ConsumeDelta(d: Delta) returns (ok: bool, chunks: seq<Chunk>)
      modifies this, merger
      ensures var (text, reasoning) := DeltaText(d, old(isReasoning));
        match ToolCalls.FeedDelta(old(merger.Now()), Fragments(d, calling), merger.gen)
        case None => !ok && chunks == []
        case Some(merged) =>
          ok && (Now(), chunks) == Emit(old(Now()).(isReasoning := reasoning, merged := merged), text)
    {
      hide ToolCalls.FeedDelta, Fragments, WrapThinking, Emit;
      chunks := [];
      var text := "";
      var noNewReasoning := d.reasoningContent == "" && d.reasoning == "";
      var hasVisiblePayload := d.content != "" || CallsTool(d);
      if !(isReasoning && noNewReasoning && !hasVisiblePayload) {
        var wrapped := WrapThinking(d, isReasoning);
        text, isReasoning := wrapped.0, wrapped.1;
      }
      ok := merger.Feed(Fragments(d, calling));
      if ok {
        chunks := Yield(text);
      }
    }

    /** The loop body; `ok` is false when it raises. */
    method Consume(item: Item) returns (ok: bool, chunks: seq<Chunk>)
      modifies this, merger
      ensures Advance(old(Now()), item, calling, merger.gen) == if ok then Some((Now(), chunks)) else None
    {
      hide ToolCalls.FeedDelta, Fragments, DeltaText, Emit, MergeUsage;
      chunks, ok := [], true;
      match item {
        case ProviderError =>
          ok := false;
        case NoChoices(report) =>
          usage := MergeUsage(usage, report);
        case Choice(report, reason, body) =>
          usage := MergeUsage(usage, report);
          if reason.Some? {
            finish := reason;
          }
          chunkIndex := chunkIndex + 1;
          match body {
            case Neither =>
            case Completion(text) =>
              chunks := Yield(text);
            case Chat(d) =>
              ok, chunks := ConsumeDelta(d);
          }
      }
    }
  }

  /** `_handle_generate_stream_response`; the generator's yields are `chunks`. */
  method HandleStream(items: seq<Item>, calling: Calling, gen: ToolCalls.IdSource)
    returns (chunks: seq<Chunk>, end: Option<Final>)
    ensures Outcome(chunks, end) == Handle(START, items, calling, gen)
  {
    hide Advance;
    var handler := new Handler(calling, gen);
    chunks, end := [], None;
    for i := 0 to |items|
      invariant fresh(handler) && fresh(handler.merger) && handler.merger.gen == gen && handler.calling == calling
      invariant end == None
      invariant Handle(START, items, calling, gen) == After(chunks, Handle(handler.Now(), items[i..], calling, gen))
    {
      assert items[i..][0] == items[i] && items[i..][1..] == items[i + 1..];
      var ok, more := handler.Consume(items[i]);
      if !ok {
        return;
      }
      AfterTwice(chunks, more, Handle(handler.Now(), items[i + 1..], calling, gen));
      chunks := chunks + more;
    }
    var closing := handler.Yield(if handler.isReasoning then CLOSE_TAG else "");
    chunks := chunks + closing;
    end := Some(Final(handler.chunkIndex, handler.merger.calls, handler.finish, handler.fullContent, handler.usage));
  }

  // ---- The think tags of a run.

  /** The parts of a stream that matter for its text, in order of arrival. */
  datatype Atom =
    | Thought(text: string)
    | Answer(text: string)
    | ToolUse
    | Plain(text: string)

  function Atoms(item: Item): seq<Atom> {
    if !item.Choice? then []
    else match item.body
      case Neither => []
      case Completion(text) => if text == "" then [] else [Plain(text)]
      case Chat(d) =>
        (if d.reasoningContent != "" then [Thought(d.reasoningContent)]
         else if d.reasoning != "" then [Thought(d.reasoning)] else [])
        + (if d.content != "" then [Answer(d.content)]
           else if d.toolCalls != [] || d.functionCall.Some? then [ToolUse] else [])
  }

  function AllAtoms(items: seq<Item>): seq<Atom> {
    if items == [] then [] else Atoms(items[0]) + AllAtoms(items[1..])
  }

  datatype Token = Open | Close | Think(text: string) | Say(text: string)

  /** Maximal groups of thoughts, each between tags; whatever follows a group closes it. */
  function Bracket(atoms: seq<Atom>, open: bool): seq<Token> {
    if atoms == [] then if open then [Close] else []
    else BracketAtom(atoms[0], open) + Bracket(atoms[1..], OpenAfter(atoms[0], open))
  }

  function BracketAtom(atom: Atom, open: bool): seq<Token> {
    match atom
    case Thought(text) => (if open then [] else [Open]) + [Think(text)]
    case Answer(text) => (if open then [Close] else []) + [Say(text)]
    case ToolUse => if open then [Close] else []
    case Plain(text) => [Say(text)]
  }

  function OpenAfter(atom: Atom, open: bool): bool {
    match atom
    case Thought(_) => true
    case Plain(_) => open
    case _ => false
  }

  function Render(tokens: seq<Token>): string {
    if tokens == [] then "" else TokenText(tokens[0]) + Render(tokens[1..])
  }

  function TokenText(token: Token): string {
    match token
    case Open => OPEN_TAG
    case Close => CLOSE_TAG
    case Think(text) => text
    case Say(text) => text
  }

  lemma {:induction false} RenderAppend(a: seq<Token>, b: seq<Token>)
    ensures Render(a + b) == Render(a) + Render(b)
  {
    if a == [] {
      assert a + b == b;
    } else {
      assert (a + b)[1..] == a[1..] + b;
      RenderAppend(a[1..], b);
    }
  }

  function ChunkText(chunks: seq<Chunk>): string {
    if chunks == [] then "" else ChunkText(chunks[..|chunks| - 1]) + chunks[|chunks| - 1].content
  }

  lemma {:induction false} ChunkTextAppend(a: seq<Chunk>, b: seq<Chunk>)
    ensures ChunkText(a + b) == ChunkText(a) + ChunkText(b)
  {
    if b == [] {
      assert a + b == a;
    } else {
      var n := |b| - 1;
      assert (a + b)[..|a| + n] == a + b[..n];
      ChunkTextAppend(a, b[..n]);
    }
  }

  lemma RenderAtom(atom: Atom, rest: seq<Atom>, open: bool)
    ensures Render(Bracket([atom] + rest, open))
         == Render(BracketAtom(atom, open)) + Render(Bracket(rest, OpenAfter(atom, open)))
  {
    assert ([atom] + rest)[1..] == rest;
    RenderAppend(BracketAtom(atom, open), Bracket(rest, OpenAfter(atom, open)));
  }

  lemma AtomText(atom: Atom, open: bool)
    ensures Render(BracketAtom(atom, open)) ==
      match atom
      case Thought(text) => (if open then "" else OPEN_TAG) + text
      case Answer(text) => (if open then CLOSE_TAG else "") + text
      case ToolUse => if open then CLOSE_TAG else ""
      case Plain(text) => text
  {
    hide TokenText;
    RenderOne(Open); RenderOne(Close);
    match atom
    case Thought(text) =>
      RenderOne(Think(text));
      RenderAppend(if open then [] else [Open], [Think(text)]);
    case Answer(text) =>
      RenderOne(Say(text));
      RenderAppend(if open then [Close] else [], [Say(text)]);
    case ToolUse =>
    case Plain(text) =>
      RenderOne(Say(text));
  }

  lemma RenderOne(token: Token)
    ensures Render([token]) == match token
      case Open => OPEN_TAG
      case Close => CLOSE_TAG
      case Think(text) => text
      case Say(text) => text
  {
  }

  function AtomsText(atoms: seq<Atom>, open: bool): string {
    if atoms == [] then ""
    else Render(BracketAtom(atoms[0], open)) + AtomsText(atoms[1..], OpenAfter(atoms[0], open))
  }

  function OpenAfterAll(atoms: seq<Atom>, open: bool): bool {
    if atoms == [] then open else OpenAfterAll(atoms[1..], OpenAfter(atoms[0], open))
  }

  lemma {:induction false} RenderAtoms(atoms: seq<Atom>, rest: seq<Atom>, open: bool)
    ensures Render(Bracket(atoms + rest, open))
         == AtomsText(atoms, open) + Render(Bracket(rest, OpenAfterAll(atoms, open)))
  {
    hide Render, Bracket, BracketAtom, OpenAfter;
    if atoms == [] {
      assert atoms + rest == rest;
    } else {
      var mid := OpenAfter(atoms[0], open);
      assert atoms + rest == [atoms[0]] + (atoms[1..] + rest);
      RenderAtom(atoms[0], atoms[1..] + rest, open);
      RenderAtoms(atoms[1..], rest, mid);
    }
  }

  /** What one delta adds to the text is what its atoms add to the bracketing. */
  lemma DeltaTextIsAtomsText(d: Delta, finish: Option<string>, open: bool)
    ensures var atoms := Atoms(Choice(map[], finish, Chat(d)));
      DeltaText(d, open) == (AtomsText(atoms, open), OpenAfterAll(atoms, open))
  {
    hide Render, BracketAtom;
    var atoms := Atoms(Choice(map[], finish, Chat(d)));
    if atoms != [] {
      AtomText(atoms[0], open);
      if |atoms| == 2 {
        AtomText(atoms[1], true);
        var inside := (if open then "" else OPEN_TAG) + Reasoning(d);
        Associate(inside, CLOSE_TAG, d.content);
        assert CLOSE_TAG + d.content + "" == CLOSE_TAG + d.content;
        var last := atoms[1..];
        assert last[0] == atoms[1] && last[1..] == [];
        assert AtomsText(last, true) == Render(BracketAtom(last[0], true)) + "";
        assert OpenAfterAll(last, true) == OpenAfter(last[0], true);
      } else {
        var only := Render(BracketAtom(atoms[0], open));
        assert atoms[1..] == [] && only + "" == only && "" + d.content == d.content;
      }
    }
  }

  lemma OneChunk(p: Progress, text: string)
    ensures ChunkText(Emit(p, text).1) == text && Emit(p, text).0.isReasoning == p.isReasoning
  {
    if text != "" {
      assert [Chunk(p.chunkIndex, text)][..0] == [];
    }
  }

  /** The text a step emits, and whether it leaves a block of thoughts open. */
  lemma AdvanceText(p: Progress, item: Item, calling: Calling, gen: ToolCalls.IdSource)
    requires Advance(p, item, calling, gen).Some?
    ensures var (p', chunks) := Advance(p, item, calling, gen).value;
      (ChunkText(chunks), p'.isReasoning)
      == if !item.Choice? then ("", p.isReasoning)
         else match item.body
           case Neither => ("", p.isReasoning)
           case Completion(text) => (text, p.isReasoning)
           case Chat(d) => DeltaText(d, p.isReasoning)
  {
    hide ChunkText, Emit, DeltaText, MergeUsage, ToolCalls.FeedDelta, Fragments;
    NoChunks();
    if item.Choice? {
      var q := p.(usage := MergeUsage(p.usage, item.usage), chunkIndex := p.chunkIndex + 1,
                  finish := if item.finish.Some? then item.finish else p.finish);
      match item.body
      case Neither =>
      case Completion(text) => OneChunk(q, text);
      case Chat(d) =>
        var merged := ToolCalls.FeedDelta(p.merged, Fragments(d, calling), gen).value;
        OneChunk(q.(isReasoning := DeltaText(d, p.isReasoning).1, merged := merged), DeltaText(d, p.isReasoning).0);
    }
  }

  lemma NoChunks()
    ensures ChunkText([]) == ""
  {
  }

  lemma AdvanceIsBracketing(p: Progress, item: Item, calling: Calling, gen: ToolCalls.IdSource, rest: seq<Atom>)
    requires Advance(p, item, calling, gen).Some?
    ensures var (p', chunks) := Advance(p, item, calling, gen).value;
      Render(Bracket(Atoms(item) + rest, p.isReasoning))
      == ChunkText(chunks) + Render(Bracket(rest, p'.isReasoning))
  {
    AdvanceText(p, item, calling, gen);
    hide Render, Bracket, Advance, ChunkText, DeltaText, BracketAtom;
    if item.Choice? && item.body.Chat? {
      hide Atoms;
      RenderAtoms(Atoms(item), rest, p.isReasoning);
      DeltaTextIsAtomsText(item.body.delta, item.finish, p.isReasoning);
      AtomsOfDelta(item);
    } else if item.Choice? && item.body.Completion? && item.body.text != "" {
      var atom := Plain(item.body.text);
      RenderAtom(atom, rest, p.isReasoning);
      AtomText(atom, p.isReasoning);
    } else {
      assert Atoms(item) + rest == rest;
      assert "" + Render(Bracket(rest, p.isReasoning)) == Render(Bracket(rest, p.isReasoning));
    }
  }

  lemma AtomsOfDelta(item: Item)
    requires item.Choice? && item.body.Chat?
    ensures Atoms(item) == Atoms(Choice(map[], item.finish, item.body))
  {
  }

  lemma {:induction false} HandleIsBracketing(p: Progress, items: seq<Item>, calling: Calling, gen: ToolCalls.IdSource)
    requires Handle(p, items, calling, gen).end.Some?
    ensures ChunkText(Handle(p, items, calling, gen).chunks) == Render(Bracket(AllAtoms(items), p.isReasoning))
    ensures Handle(p, items, calling, gen).end.value.content == p.content + ChunkText(Handle(p, items, calling, gen).chunks)
    decreases |items|
  {
    hide Advance, Atoms, Bracket, Render, ChunkText, Finish;
    if items == [] {
      FinishText(p);
    } else {
      var (p', chunks) := Advance(p, items[0], calling, gen).value;
      var rest := Handle(p', items[1..], calling, gen);
      HandleIsBracketing(p', items[1..], calling, gen);
      AdvanceIsBracketing(p, items[0], calling, gen, AllAtoms(items[1..]));
      AdvanceContent(p, items[0], calling, gen);
      ChunkTextAppend(chunks, rest.chunks);
      Associate(p.content, ChunkText(chunks), ChunkText(rest.chunks));
    }
  }

  lemma Associate(a: string, b: string, c: string)
    ensures a + b + c == a + (b + c)
  {
  }

  lemma FinishText(p: Progress)
    ensures ChunkText(Finish(p).chunks) == Render(Bracket([], p.isReasoning))
    ensures Finish(p).end.value.content == p.content + ChunkText(Finish(p).chunks)
  {
    var chunks := Finish(p).chunks;
    assert chunks != [] ==> chunks[..|chunks| - 1] == [];
    RenderOne(Close);
  }

  lemma AdvanceContent(p: Progress, item: Item, calling: Calling, gen: ToolCalls.IdSource)
    requires Advance(p, item, calling, gen).Some?
    ensures var (p', chunks) := Advance(p, item, calling, gen).value; p'.content == p.content + ChunkText(chunks)
  {
    var (p', chunks) := Advance(p, item, calling, gen).value;
    assert chunks != [] ==> chunks[..|chunks| - 1] == [];
  }

  /** The text of every completed stream is its thoughts and answers in order of arrival,
      each maximal group of thoughts between one pair of tags. */
  lemma TextIsBracketing(items: seq<Item>, calling: Calling, gen: ToolCalls.IdSource)
    requires Handle(START, items, calling, gen).end.Some?
    ensures var outcome := Handle(START, items, calling, gen);
      ChunkText(outcome.chunks) == outcome.end.value.content == Render(Bracket(AllAtoms(items), false))
  {
    HandleIsBracketing(START, items, calling, gen);
  }

  /** Tags alternate, thoughts are inside, everything else is outside, and the end is outside. */
  predicate WellBracketed(tokens: seq<Token>, open: bool) {
    if tokens == [] then !open
    else match tokens[0]
      case Open => !open && WellBracketed(tokens[1..], true)
      case Close => open && WellBracketed(tokens[1..], false)
      case Think(_) => open && WellBracketed(tokens[1..], open)
      case Say(_) => !open && WellBracketed(tokens[1..], open)
  }

  /** No completion text arrives while a block of thoughts is open. */
  predicate NoPlainInside(atoms: seq<Atom>, open: bool) {
    atoms == [] || ((atoms[0].Plain? ==> !open) && NoPlainInside(atoms[1..], OpenAfter(atoms[0], open)))
  }

  lemma WellBracketedStep(token: Token, rest: seq<Token>, open: bool)
    ensures WellBracketed([token] + rest, open) <==>
      match token
      case Open => !open && WellBracketed(rest, true)
      case Close => open && WellBracketed(rest, false)
      case Think(_) => open && WellBracketed(rest, open)
      case Say(_) => !open && WellBracketed(rest, open)
  {
    assert ([token] + rest)[1..] == rest;
  }

  /** What one atom contributes. */
  lemma AtomBracketed(atom: Atom, rest: seq<Token>, open: bool)
    ensures WellBracketed(BracketAtom(atom, open) + rest, open)
       <==> (atom.Plain? ==> !open) && WellBracketed(rest, OpenAfter(atom, open))
  {
    hide WellBracketed;
    var now := BracketAtom(atom, open);
    if |now| == 0 {
      assert now + rest == rest;
    } else if |now| == 1 {
      WellBracketedStep(now[0], rest, open);
      assert now == [now[0]];
    } else {
      assert now + rest == [now[0]] + ([now[1]] + rest);
      WellBracketedStep(now[0], [now[1]] + rest, open);
      WellBracketedStep(now[1], rest, !open);
    }
  }

  lemma {:induction false} BracketWellBracketed(atoms: seq<Atom>, open: bool)
    ensures WellBracketed(Bracket(atoms, open), open) <==> NoPlainInside(atoms, open)
  {
    if atoms != [] {
      hide BracketAtom, OpenAfter, WellBracketed;
      var later := Bracket(atoms[1..], OpenAfter(atoms[0], open));
      BracketWellBracketed(atoms[1..], OpenAfter(atoms[0], open));
      AtomBracketed(atoms[0], later, open);
    }
  }

  function Thoughts(atoms: seq<Atom>): seq<string> {
    if atoms == [] then []
    else (if atoms[0].Thought? then [atoms[0].text] else []) + Thoughts(atoms[1..])
  }

  function Answers(atoms: seq<Atom>): seq<string> {
    if atoms == [] then []
    else (if atoms[0].Answer? || atoms[0].Plain? then [atoms[0].text] else []) + Answers(atoms[1..])
  }

  function Inside(tokens: seq<Token>): seq<string> {
    if tokens == [] then []
    else (if tokens[0].Think? then [tokens[0].text] else []) + Inside(tokens[1..])
  }

  function Outside(tokens: seq<Token>): seq<string> {
    if tokens == [] then []
    else (if tokens[0].Say? then [tokens[0].text] else []) + Outside(tokens[1..])
  }

  lemma {:induction false} InsideAppend(a: seq<Token>, b: seq<Token>)
    ensures Inside(a + b) == Inside(a) + Inside(b)
  {
    if a == [] {
      assert a + b == b;
    } else {
      assert (a + b)[0] == a[0] && (a + b)[1..] == a[1..] + b;
      InsideAppend(a[1..], b);
    }
  }

  lemma {:induction false} OutsideAppend(a: seq<Token>, b: seq<Token>)
    ensures Outside(a + b) == Outside(a) + Outside(b)
  {
    if a == [] {
      assert a + b == b;
    } else {
      assert (a + b)[0] == a[0] && (a + b)[1..] == a[1..] + b;
      OutsideAppend(a[1..], b);
    }
  }

  lemma AtomSides(atom: Atom, open: bool)
    ensures Inside(BracketAtom(atom, open)) == if atom.Thought? then [atom.text] else []
    ensures Outside(BracketAtom(atom, open)) == if atom.Answer? || atom.Plain? then [atom.text] else []
  {
    var tag := if atom.Thought? then (if open then [] else [Open]) else if atom.Plain? || !open then [] else [Close];
    assert tag != [] ==> tag[1..] == [];
    if !atom.ToolUse? {
      var text := [if atom.Thought? then Think(atom.text) else Say(atom.text)];
      assert text[1..] == [] && BracketAtom(atom, open) == tag + text;
      InsideAppend(tag, text);
      OutsideAppend(tag, text);
    }
  }

  lemma {:induction false} BracketKeepsTexts(atoms: seq<Atom>, open: bool)
    ensures Inside(Bracket(atoms, open)) == Thoughts(atoms)
    ensures Outside(Bracket(atoms, open)) == Answers(atoms)
  {
    hide Inside, Outside, BracketAtom, OpenAfter;
    if atoms == [] {
      AtomSides(ToolUse, open);
      assert Bracket(atoms, open) == BracketAtom(ToolUse, open) by { BracketEnd(open); }
    } else {
      var now, later := BracketAtom(atoms[0], open), Bracket(atoms[1..], OpenAfter(atoms[0], open));
      InsideAppend(now, later);
      OutsideAppend(now, later);
      AtomSides(atoms[0], open);
      BracketKeepsTexts(atoms[1..], OpenAfter(atoms[0], open));
    }
  }

  lemma BracketEnd(open: bool)
    ensures Bracket([], open) == BracketAtom(ToolUse, open)
  {
  }

  predicate ChatOnly(items: seq<Item>) {
    forall i :: 0 <= i < |items| && items[i].Choice? ==> !items[i].body.Completion?
  }

  lemma {:induction false} ChatHasNoPlain(items: seq<Item>, open: bool)
    requires ChatOnly(items)
    ensures NoPlainInside(AllAtoms(items), open)
    decreases |items|, 0
  {
    if items != [] {
      NoPlainAppend(Atoms(items[0]), items[1..], open);
    }
  }

  lemma {:induction false} NoPlainAppend(atoms: seq<Atom>, items: seq<Item>, open: bool)
    requires ChatOnly(items) && forall i :: 0 <= i < |atoms| ==> !atoms[i].Plain?
    ensures NoPlainInside(atoms + AllAtoms(items), open)
    decreases |items|, |atoms| + 1
  {
    if atoms == [] {
      assert atoms + AllAtoms(items) == AllAtoms(items);
      ChatHasNoPlain(items, open);
    } else {
      assert (atoms + AllAtoms(items))[1..] == atoms[1..] + AllAtoms(items);
      NoPlainAppend(atoms[1..], items, OpenAfter(atoms[0], open));
    }
  }

  /** For every completed run of chat deltas the emitted text is a well-bracketed sequence:
      tags alternate and end closed, all reasoning inside and all answer text outside them,
      each in order of arrival. */
  lemma ChatIsWellBracketed(items: seq<Item>, calling: Calling, gen: ToolCalls.IdSource)
    requires ChatOnly(items) && Handle(START, items, calling, gen).end.Some?
    ensures exists tokens ::
      && Render(tokens) == ChunkText(Handle(START, items, calling, gen).chunks)
      && WellBracketed(tokens, false)
      && Inside(tokens) == Thoughts(AllAtoms(items))
      && Outside(tokens) == Answers(AllAtoms(items))
  {
    var tokens := Bracket(AllAtoms(items), false);
    TextIsBracketing(items, calling, gen);
    ChatHasNoPlain(items, false);
    BracketWellBracketed(AllAtoms(items), false);
    BracketKeepsTexts(AllAtoms(items), false);
    assert Render(tokens) == ChunkText(Handle(START, items, calling, gen).chunks);
  }

  /** A delta with nothing in it. */
  predicate Heartbeat(item: Item) {
    item.Choice? && item.body.Chat? && Atoms(item) == []
  }

  lemma HeartbeatFeedsNothing(st: ToolCalls.State, d: Delta, calling: Calling, gen: ToolCalls.IdSource)
    requires !CallsTool(d)
    ensures ToolCalls.FeedDelta(st, Fragments(d, calling), gen) == Some(st)
  {
    if calling == FunctionCall {
      ToolCalls.FeedSingle(st, ToolCalls.Fragment(None, "tool_call_id", "function", None), gen);
    }
  }

  lemma {:induction false} HeartbeatKeepsCompletion(p: Progress, before: seq<Item>, beat: Item, after: seq<Item>,
                                                    calling: Calling, gen: ToolCalls.IdSource)
    requires Heartbeat(beat)
    ensures Handle(p, before + [beat] + after, calling, gen).end.Some?
       <==> Handle(p, before + after, calling, gen).end.Some?
    decreases |before|
  {
    if before == [] {
      assert (before + [beat] + after)[1..] == after && before + after == after;
      HeartbeatFeedsNothing(p.merged, beat.body.delta, calling, gen);
      hide Handle, Advance;
      var p' := BeatStep(p, beat, calling, gen);
      HandleMerges(p, after, calling, gen);
      HandleMerges(p', after, calling, gen);
      HandleStep(p, before + [beat] + after, calling, gen);
    } else {
      hide Advance, Heartbeat;
      assert (before + [beat] + after)[1..] == before[1..] + [beat] + after;
      assert (before + after)[1..] == before[1..] + after;
      if Advance(p, before[0], calling, gen).Some? {
        HeartbeatKeepsCompletion(Advance(p, before[0], calling, gen).value.0, before[1..], beat, after, calling, gen);
      }
    }
  }

  lemma BeatStep(p: Progress, beat: Item, calling: Calling, gen: ToolCalls.IdSource) returns (p': Progress)
    requires Heartbeat(beat)
    requires ToolCalls.FeedDelta(p.merged, Fragments(beat.body.delta, calling), gen) == Some(p.merged)
    ensures Advance(p, beat, calling, gen).Some? && Advance(p, beat, calling, gen).value.0 == p'
    ensures p'.merged == p.merged
  {
    p' := Advance(p, beat, calling, gen).value.0;
  }

  lemma HandleStep(p: Progress, items: seq<Item>, calling: Calling, gen: ToolCalls.IdSource)
    requires items != [] && Advance(p, items[0], calling, gen).Some?
    ensures Handle(p, items, calling, gen).end
         == Handle(Advance(p, items[0], calling, gen).value.0, items[1..], calling, gen).end
  {
  }

  /** Heartbeats are invisible: dropping one anywhere changes neither whether the stream
      completes nor, if it does, its text and tags. */
  lemma {:induction false} HeartbeatsInvisible(before: seq<Item>, beat: Item, after: seq<Item>,
                                               calling: Calling, gen: ToolCalls.IdSource)
    requires Heartbeat(beat)
    ensures var with, without := Handle(START, before + [beat] + after, calling, gen),
                                 Handle(START, before + after, calling, gen);
      && (with.end.Some? <==> without.end.Some?)
      && (with.end.Some? ==> ChunkText(with.chunks) == ChunkText(without.chunks))
  {
    hide Handle, Bracket, Render, Atoms, ChunkText;
    HeartbeatKeepsCompletion(START, before, beat, after, calling, gen);
    if Handle(START, before + after, calling, gen).end.Some? {
      TextIsBracketing(before + [beat] + after, calling, gen);
      TextIsBracketing(before + after, calling, gen);
      AtomsAppend(before + [beat], after);
      AtomsAppend(before, [beat]);
      AtomsAppend(before, after);
      assert AllAtoms([beat]) == Atoms(beat) + AllAtoms([beat][1..]) == [];
      assert AllAtoms(before) + [] + AllAtoms(after) == AllAtoms(before) + AllAtoms(after);
    }
  }

  /** A stream that mixes chat deltas and completion texts does break the bracketing: a text
      right after a thought lands inside the tags. */
  lemma CompletionTextFallsInside(thought: string, text: string, calling: Calling, gen: ToolCalls.IdSource)
    requires thought != "" && text != ""
    ensures var items := [Choice(map[], None, Chat(Delta("", thought, "", [], None))), Choice(map[], None, Completion(text))];
      var outcome := Handle(START, items, calling, gen);
      && outcome.end.Some?
      && ChunkText(outcome.chunks) == "<think>\n" + thought + text + "\n</think>"
      && !WellBracketed(Bracket(AllAtoms(items), false), false)
  {
    var d := Delta("", thought, "", [], None);
    var items := [Choice(map[], None, Chat(d)), Choice(map[], None, Completion(text))];
    var atoms := [Thought(thought), Plain(text)];
    AtomsOfMixed(thought, text);
    CompletesMixed(items, d, text, calling, gen);
    hide Handle, AllAtoms, ChunkText;
    TextIsBracketing(items, calling, gen);
    BracketOfMixed(thought, text);
    assert atoms[1..] == [Plain(text)] && !NoPlainInside([Plain(text)], true);
    BracketWellBracketed(atoms, false);
  }

  lemma AtomsOfMixed(thought: string, text: string)
    requires thought != "" && text != ""
    ensures AllAtoms([Choice(map[], None, Chat(Delta("", thought, "", [], None))), Choice(map[], None, Completion(text))])
         == [Thought(thought), Plain(text)]
  {
    var first, second := Choice(map[], None, Chat(Delta("", thought, "", [], None))), Choice(map[], None, Completion(text));
    assert [first, second][1..] == [second] && [second][1..] == [];
    assert AllAtoms([second]) == Atoms(second) + AllAtoms([]) == [Plain(text)];
    assert Atoms(first) == [Thought(thought)];
  }

  lemma BracketOfMixed(thought: string, text: string)
    ensures Render(Bracket([Thought(thought), Plain(text)], false)) == OPEN_TAG + thought + text + CLOSE_TAG
  {
    var tokens := [Open, Think(thought), Say(text), Close];
    assert [Thought(thought), Plain(text)][1..] == [Plain(text)] && [Plain(text)][1..] == [];
    assert Bracket([Plain(text)], true) == [Say(text)] + Bracket([], true) == [Say(text), Close];
    assert Bracket([Thought(thought), Plain(text)], false) == tokens;
    RenderAppend([Open] + [Think(thought)], [Say(text)] + [Close]);
    RenderAppend([Open], [Think(thought)]);
    RenderAppend([Say(text)], [Close]);
    RenderOne(Open);
    RenderOne(Think(thought));
    RenderOne(Say(text));
    RenderOne(Close);
    assert tokens == [Open] + [Think(thought)] + ([Say(text)] + [Close]);
    assert (OPEN_TAG + thought) + (text + CLOSE_TAG) == OPEN_TAG + thought + text + CLOSE_TAG;
  }

  lemma CompletesMixed(items: seq<Item>, d: Delta, text: string, calling: Calling, gen: ToolCalls.IdSource)
    requires items == [Choice(map[], None, Chat(d)), Choice(map[], None, Completion(text))] && !CallsTool(d)
    ensures Handle(START, items, calling, gen).end.Some?
  {
    hide DeltaText, ToolCalls.FeedDelta, Fragments;
    HeartbeatFeedsNothing(START.merged, d, calling, gen);
    var p := Advance(START, items[0], calling, gen).value.0;
    assert items[1..][1..] == [];
    var q := Advance(p, items[1], calling, gen).value.0;
    assert Handle(q, [], calling, gen).end.Some?;
  }

  lemma {:induction false} AtomsAppend(a: seq<Item>, b: seq<Item>)
    ensures AllAtoms(a + b) == AllAtoms(a) + AllAtoms(b)
  {
    if a == [] {
      assert a + b == b;
    } else {
      assert (a + b)[1..] == a[1..] + b;
      AtomsAppend(a[1..], b);
    }
  }

  /** Chunk indices from `low` on, strictly increasing, below `high`. */
  ghost predicate Increasing(chunks: seq<Chunk>, low: nat, high: nat) {
    && low <= high
    && (forall i :: 0 <= i < |chunks| ==> low <= chunks[i].index < high && chunks[i].content != "")
    && (forall i, j :: 0 <= i < j < |chunks| ==> chunks[i].index < chunks[j].index)
  }

  lemma IncreasingAppend(a: seq<Chunk>, b: seq<Chunk>, low: nat, mid: nat, high: nat)
    requires Increasing(a, low, mid) && Increasing(b, mid, high)
    ensures Increasing(a + b, low, high)
  {
  }

  lemma {:induction false} HandleIncreasing(p: Progress, items: seq<Item>, calling: Calling, gen: ToolCalls.IdSource)
    ensures var outcome := Handle(p, items, calling, gen);
      && (outcome.end.Some? ==> Increasing(outcome.chunks, p.chunkIndex, outcome.end.value.index))
      && exists high :: Increasing(outcome.chunks, p.chunkIndex, high)
    decreases |items|
  {
    if items == [] {
      assert Increasing(Finish(p).chunks, p.chunkIndex, Finish(p).end.value.index);
    } else {
      match Advance(p, items[0], calling, gen)
      case None =>
        assert Increasing([], p.chunkIndex, p.chunkIndex);
      case Some((p', chunks)) =>
        assert Increasing(chunks, p.chunkIndex, p'.chunkIndex);
        HandleIncreasing(p', items[1..], calling, gen);
        var rest := Handle(p', items[1..], calling, gen);
        var high :| Increasing(rest.chunks, p'.chunkIndex, high);
        IncreasingAppend(chunks, rest.chunks, p.chunkIndex, p'.chunkIndex, high);
        if rest.end.Some? {
          IncreasingAppend(chunks, rest.chunks, p.chunkIndex, p'.chunkIndex, rest.end.value.index);
        }
    }
  }

  // ---- The usage of a run.

  /** The last count reported under a name, if any. */
  function LastReported(items: seq<Item>, k: string): Option<int> {
    if items == [] then None
    else
      var last := items[|items| - 1];
      if !last.ProviderError? && k in last.usage && last.usage[k].Some? then last.usage[k]
      else LastReported(items[..|items| - 1], k)
  }

  lemma {:induction false} LastReportedJoins(first: Item, rest: seq<Item>, k: string)
    ensures LastReported([first] + rest, k)
         == if LastReported(rest, k).Some? then LastReported(rest, k) else LastReported([first], k)
  {
    var all := [first] + rest;
    if rest == [] {
      assert all == [first];
    } else {
      assert all[..|all| - 1] == [first] + rest[..|rest| - 1];
      LastReportedJoins(first, rest[..|rest| - 1], k);
    }
  }

  lemma {:induction false} HandleUsage(p: Progress, items: seq<Item>, calling: Calling, gen: ToolCalls.IdSource, k: string)
    requires Handle(p, items, calling, gen).end.Some?
    ensures var usage, last := Handle(p, items, calling, gen).end.value.usage, LastReported(items, k);
      if last.Some? then k in usage && usage[k] == last.value
      else (k in usage <==> k in p.usage) && (k in usage ==> usage[k] == p.usage[k])
    decreases |items|
  {
    hide ToolCalls.FeedDelta, DeltaText, Fragments;
    if items != [] {
      var p' := Advance(p, items[0], calling, gen).value.0;
      HandleUsage(p', items[1..], calling, gen, k);
      assert items == [items[0]] + items[1..];
      LastReportedJoins(items[0], items[1..], k);
      assert [items[0]][..0] == [];
      assert p'.usage == MergeUsage(p.usage, items[0].usage);
    }
  }

  /** The usage of a completed stream has, under each name, the last count reported that was
      not null, whichever objects the reports came with, and no other names. */
  lemma UsageIsLastReported(items: seq<Item>, calling: Calling, gen: ToolCalls.IdSource, k: string)
    requires Handle(START, items, calling, gen).end.Some?
    ensures var usage := Handle(START, items, calling, gen).end.value.usage;
      LastReported(items, k) == if k in usage then Some(usage[k]) else None
  {
    HandleUsage(START, items, calling, gen, k);
  }

  // ---- The rest of the final chunk.

  /** The last finish reason reported, if any. */
  function LastFinish(items: seq<Item>): Option<string> {
    if items == [] then None
    else
      var last := items[|items| - 1];
      if last.Choice? && last.finish.Some? then last.finish else LastFinish(items[..|items| - 1])
  }

  lemma {:induction false} LastFinishJoins(first: Item, rest: seq<Item>)
    ensures LastFinish([first] + rest) == if LastFinish(rest).Some? then LastFinish(rest) else LastFinish([first])
  {
    var all := [first] + rest;
    if rest == [] {
      assert all == [first];
    } else {
      assert all[..|all| - 1] == [first] + rest[..|rest| - 1];
      LastFinishJoins(first, rest[..|rest| - 1]);
    }
  }

  lemma {:induction false} HandleFinish(p: Progress, items: seq<Item>, calling: Calling, gen: ToolCalls.IdSource)
    requires Handle(p, items, calling, gen).end.Some?
    ensures Handle(p, items, calling, gen).end.value.finish
         == if LastFinish(items).Some? then LastFinish(items) else p.finish
    decreases |items|
  {
    hide ToolCalls.FeedDelta, DeltaText, Fragments, MergeUsage;
    if items != [] {
      var p' := Advance(p, items[0], calling, gen).value.0;
      HandleFinish(p', items[1..], calling, gen);
      assert items == [items[0]] + items[1..];
      LastFinishJoins(items[0], items[1..]);
      assert [items[0]][..0] == [];
    }
  }

  /** The number of choices among the items. */
  function Choices(items: seq<Item>): nat {
    if items == [] then 0 else (if items[0].Choice? then 1 else 0) + Choices(items[1..])
  }

  lemma {:induction false} HandleCounts(p: Progress, items: seq<Item>, calling: Calling, gen: ToolCalls.IdSource)
    requires Handle(p, items, calling, gen).end.Some?
    ensures var outcome := Handle(p, items, calling, gen);
      outcome.end.value.index == p.chunkIndex + Choices(items) + |outcome.chunks|
    decreases |items|
  {
    hide ToolCalls.FeedDelta, DeltaText, Fragments, MergeUsage;
    if items != [] {
      var p' := Advance(p, items[0], calling, gen).value.0;
      HandleCounts(p', items[1..], calling, gen);
    }
  }

  /** The final chunk has the last finish reason reported, and its index counts the choices
      received and the chunks sent. */
  lemma FinalFinishAndIndex(items: seq<Item>, calling: Calling, gen: ToolCalls.IdSource)
    requires Handle(START, items, calling, gen).end.Some?
    ensures var outcome := Handle(START, items, calling, gen);
      && outcome.end.value.finish == LastFinish(items)
      && outcome.end.value.index == Choices(items) + |outcome.chunks|
  {
    HandleFinish(START, items, calling, gen);
    HandleCounts(START, items, calling, gen);
  }

  // ---- The tool calls of a run.

  /** The deltas fed to the merger, one per chat choice. */
  function ToolDeltas(items: seq<Item>, calling: Calling): seq<seq<ToolCalls.Fragment>> {
    if items == [] then []
    else
      (if items[0].Choice? && items[0].body.Chat? then [Fragments(items[0].body.delta, calling)] else [])
      + ToolDeltas(items[1..], calling)
  }

  lemma AdvanceMerges(p: Progress, item: Item, calling: Calling, gen: ToolCalls.IdSource)
    ensures var r := Advance(p, item, calling, gen);
      if item.Choice? && item.body.Chat? then
        var merged := ToolCalls.FeedDelta(p.merged, Fragments(item.body.delta, calling), gen);
        (r.Some? <==> merged.Some?) && (r.Some? ==> r.value.0.merged == merged.value)
      else
        (r.Some? <==> item != ProviderError) && (r.Some? ==> r.value.0.merged == p.merged)
  {
    hide ToolCalls.FeedDelta, DeltaText, Fragments, MergeUsage;
  }

  /** A stream completes exactly when it has no error and merging what it feeds does not
      raise; its last chunk has the merged calls. */
  lemma {:induction false} HandleMerges(p: Progress, items: seq<Item>, calling: Calling, gen: ToolCalls.IdSource)
    ensures var end, merged := Handle(p, items, calling, gen).end, ToolCalls.Run(p.merged, ToolDeltas(items, calling), gen);
      && (end.Some? <==> ProviderError !in items && merged.Some?)
      && (end.Some? ==> end.value.calls == merged.value.calls)
    decreases |items|
  {
    hide ToolCalls.FeedDelta, Fragments, Advance;
    if items != [] {
      var deltas := ToolDeltas(items, calling);
      assert items == [items[0]] + items[1..];
      AdvanceMerges(p, items[0], calling, gen);
      if items[0].Choice? && items[0].body.Chat? {
        assert deltas[1..] == ToolDeltas(items[1..], calling);
      } else {
        assert deltas == ToolDeltas(items[1..], calling);
      }
      if Advance(p, items[0], calling, gen).Some? {
        HandleMerges(Advance(p, items[0], calling, gen).value.0, items[1..], calling, gen);
      }
    }
  }

  /** The tool calls the chat deltas carry, delta by delta. */
  function DeltaCalls(items: seq<Item>): seq<seq<ToolCalls.Fragment>> {
    if items == [] then []
    else
      (if items[0].Choice? && items[0].body.Chat? then [items[0].body.delta.toolCalls] else []) + DeltaCalls(items[1..])
  }

  lemma {:induction false} ToolCallFeedsDeltas(items: seq<Item>)
    ensures ToolDeltas(items, ToolCall) == DeltaCalls(items)
  {
    if items != [] {
      ToolCallFeedsDeltas(items[1..]);
    }
  }

  lemma {:induction false} NoCallFeedsNothing(st: ToolCalls.State, items: seq<Item>, gen: ToolCalls.IdSource)
    ensures ToolCalls.Run(st, ToolDeltas(items, NoCall), gen) == Some(st)
  {
    if items != [] {
      NoCallFeedsNothing(st, items[1..], gen);
      var deltas := ToolDeltas(items, NoCall);
      if items[0].Choice? && items[0].body.Chat? {
        assert deltas[0] == [] && deltas[1..] == ToolDeltas(items[1..], NoCall);
        assert ToolCalls.FeedDelta(st, [], gen) == Some(st);
      } else {
        assert deltas == ToolDeltas(items[1..], NoCall);
      }
    }
  }

  /** The function calls the chat deltas carry, in order. */
  function Functions(items: seq<Item>): seq<ToolCalls.Function> {
    if items == [] then []
    else
      (if items[0].Choice? && items[0].body.Chat? && items[0].body.delta.functionCall.Some?
       then [items[0].body.delta.functionCall.value] else [])
      + Functions(items[1..])
  }

  /** The last name given, if any. */
  function LastName(functions: seq<ToolCalls.Function>): string {
    if functions == [] then ""
    else
      var last := functions[|functions| - 1];
      if last.name != "" then last.name else LastName(functions[..|functions| - 1])
  }

  /** The argument pieces, glued together. */
  function AllArguments(functions: seq<ToolCalls.Function>): string {
    if functions == [] then "" else AllArguments(functions[..|functions| - 1]) + functions[|functions| - 1].arguments
  }

  /** All function-call pieces as one call. */
  function TheCall(functions: seq<ToolCalls.Function>): seq<ToolCalls.ToolCall> {
    if functions == [] then []
    else [ToolCalls.ToolCall("tool_call_id", "function", LastName(functions), AllArguments(functions))]
  }

  lemma OneMore(functions: seq<ToolCalls.Function>, func: ToolCalls.Function)
    ensures LastName(functions + [func]) == if func.name == "" then LastName(functions) else func.name
    ensures AllArguments(functions + [func]) == AllArguments(functions) + func.arguments
    ensures functions == [] ==> LastName(functions) == "" && AllArguments(functions) + func.arguments == func.arguments
  {
    assert (functions + [func])[..|functions|] == functions;
  }

  lemma FeedFunction(st: ToolCalls.State, functions: seq<ToolCalls.Function>, func: ToolCalls.Function,
                     gen: ToolCalls.IdSource)
    requires st.calls == TheCall(functions)
    ensures var r := ToolCalls.FeedDelta(st, [ToolCalls.Fragment(None, "tool_call_id", "function", Some(func))], gen);
      r.Some? && r.value.calls == TheCall(functions + [func])
  {
    hide ToolCalls.FeedDelta, LastName, AllArguments;
    var f := ToolCalls.Fragment(None, "tool_call_id", "function", Some(func));
    ToolCalls.UnindexedFragment(st, f, gen);
    OneMore(functions, func);
    if functions != [] {
      assert ToolCalls.IsFirst(st.calls, "tool_call_id", 0);
      var calls := ToolCalls.FeedDelta(st, [f], gen).value.calls;
      assert ToolCalls.Continues(st.calls, 0, f, calls);
      assert calls == [calls[0]];
    }
  }

  lemma {:induction false} RunFunctionCalls(st: ToolCalls.State, items: seq<Item>, gen: ToolCalls.IdSource,
                                            functions: seq<ToolCalls.Function>)
    requires st.calls == TheCall(functions)
    ensures var r := ToolCalls.Run(st, ToolDeltas(items, FunctionCall), gen);
      r.Some? && r.value.calls == TheCall(functions + Functions(items))
    decreases |items|
  {
    hide ToolCalls.FeedDelta, TheCall;
    if items == [] {
      assert functions + [] == functions;
    } else {
      var deltas := ToolDeltas(items, FunctionCall);
      if items[0].Choice? && items[0].body.Chat? {
        var d := items[0].body.delta;
        assert deltas[0] == [ToolCalls.Fragment(None, "tool_call_id", "function", d.functionCall)];
        assert deltas[1..] == ToolDeltas(items[1..], FunctionCall);
        if d.functionCall.Some? {
          FeedFunction(st, functions, d.functionCall.value, gen);
          assert functions + [d.functionCall.value] + Functions(items[1..]) == functions + Functions(items);
          RunFunctionCalls(ToolCalls.FeedDelta(st, deltas[0], gen).value, items[1..], gen,
                           functions + [d.functionCall.value]);
        } else {
          ToolCalls.FeedSingle(st, deltas[0][0], gen);
          assert Functions(items) == Functions(items[1..]);
          RunFunctionCalls(st, items[1..], gen, functions);
        }
      } else {
        assert deltas == ToolDeltas(items[1..], FunctionCall) && Functions(items) == Functions(items[1..]);
        RunFunctionCalls(st, items[1..], gen, functions);
      }
    }
  }

  /** The final chunk's tool calls under each calling type: none; the merge of the tool calls
      the deltas carried; or one call glued together from the function-call pieces. */
  lemma FinalCalls(items: seq<Item>, calling: Calling, gen: ToolCalls.IdSource)
    requires Handle(START, items, calling, gen).end.Some?
    ensures var calls := Handle(START, items, calling, gen).end.value.calls;
      match calling
      case NoCall => calls == []
      case ToolCall =>
        var merged := ToolCalls.Run(ToolCalls.INITIAL, DeltaCalls(items), gen);
        merged.Some? && calls == merged.value.calls
      case FunctionCall =>
        calls == if Functions(items) == [] then []
                 else [ToolCalls.ToolCall("tool_call_id", "function", LastName(Functions(items)), AllArguments(Functions(items)))]
  {
    HandleMerges(START, items, calling, gen);
    match calling
    case NoCall => NoCallFeedsNothing(ToolCalls.INITIAL, items, gen);
    case ToolCall => ToolCallFeedsDeltas(items);
    case FunctionCall =>
      RunFunctionCalls(ToolCalls.INITIAL, items, gen, []);
      assert [] + Functions(items) == Functions(items);
  }

  /** Exactly when a stream completes, on its items alone: it has no provider error, and under
      the tool-call protocol its first fragment with a function is not a nameless one. */
  lemma CompletesExactly(items: seq<Item>, calling: Calling, gen: ToolCalls.IdSource)
    ensures Handle(START, items, calling, gen).end.Some?
       <==> ProviderError !in items && (calling == ToolCall ==> !ToolCalls.StartsNameless(Concat(DeltaCalls(items))))
  {
    HandleMerges(START, items, calling, gen);
    match calling
    case NoCall => NoCallFeedsNothing(ToolCalls.INITIAL, items, gen);
    case ToolCall =>
      ToolCallFeedsDeltas(items);
      ToolCalls.RaisesExactly(DeltaCalls(items), gen);
    case FunctionCall => RunFunctionCalls(ToolCalls.INITIAL, items, gen, []);
  }

  lemma {:induction false} HandleCut(p: Progress, before: seq<Item>, after: seq<Item>, calling: Calling, gen: ToolCalls.IdSource)
    requires Handle(p, before, calling, gen).end.Some?
    ensures var whole, cut := Handle(p, before, calling, gen), Handle(p, before + [ProviderError] + after, calling, gen);
      && cut.end.None?
      && (whole.chunks == cut.chunks
          || exists last: Chunk :: last.content == CLOSE_TAG && whole.chunks == cut.chunks + [last])
    decreases |before|
  {
    hide Advance;
    var longer := before + [ProviderError] + after;
    if before == [] {
      assert Advance(p, longer[0], calling, gen).None? by { ErrorRaises(p, calling, gen); }
      var closing := Finish(p).chunks;
      assert closing != [] ==> closing == [] + [closing[0]];
    } else {
      assert longer[1..] == before[1..] + [ProviderError] + after;
      var (p', chunks) := Advance(p, before[0], calling, gen).value;
      HandleCut(p', before[1..], after, calling, gen);
      var whole, cut := Handle(p', before[1..], calling, gen), Handle(p', longer[1..], calling, gen);
      if last: Chunk :| last.content == CLOSE_TAG && whole.chunks == cut.chunks + [last] {
        assert chunks + (cut.chunks + [last]) == chunks + cut.chunks + [last];
      }
    }
  }

  lemma ErrorRaises(p: Progress, calling: Calling, gen: ToolCalls.IdSource)
    ensures Advance(p, ProviderError, calling, gen).None?
  {
  }

  /** A provider error ends the stream there: the consumer has been given what the stream
      before it gives, but for the closing tag, and gets no final chunk. */
  lemma ErrorCutsShort(before: seq<Item>, after: seq<Item>, calling: Calling, gen: ToolCalls.IdSource)
    requires Handle(START, before, calling, gen).end.Some?
    ensures var whole, cut := Handle(START, before, calling, gen), Handle(START, before + [ProviderError] + after, calling, gen);
      && cut.end.None?
      && (whole.chunks == cut.chunks
          || exists last: Chunk :: last.content == CLOSE_TAG && whole.chunks == cut.chunks + [last])
  {
    HandleCut(START, before, after, calling, gen);
  }
}
