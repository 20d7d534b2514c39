// The two stream processors that strip markdown code fences from a model's answer.
module CodeFence {
  import opened Text

  const CODE_FENCE_BACKTICK_COUNT := 3

  // ---- What the processors compute, on whole texts.

  predicate IsFence(s: string, i: nat) {
    i + 3 <= |s| && s[i] == '`' && s[i + 1] == '`' && s[i + 2] == '`'
  }

  /** The first triple backtick, or the length of `s`. */
  function FirstFence(s: string): (i: nat)
    ensures i <= |s|
    ensures i < |s| ==> IsFence(s, i)
    ensures forall j :: 0 <= j < i ==> !IsFence(s, j)
  {
    if s == "" || IsFence(s, 0) then 0
    else
      assert forall j :: 0 < j < |s| ==> IsFence(s, j) == IsFence(s[1..], j - 1);
      1 + FirstFence(s[1..])
  }

  predicate HasFence(s: string) {
    FirstFence(s) < |s|
  }

  /** The first whitespace character, or the length of `s`. */
  function FirstSpace(s: string): (i: nat)
    ensures i <= |s|
  {
    if s == "" || IsSpace(s[0]) then 0 else 1 + FirstSpace(s[1..])
  }

  /** The first newline, or the length of `s`. */
  function FirstNewline(s: string): (i: nat)
    ensures i <= |s|
  {
    if s == "" || s[0] == '\n' then 0 else 1 + FirstNewline(s[1..])
  }

  function DropTicks(s: string): (t: string)
    ensures t <= s
    ensures t == "" || t[|t| - 1] != '`'
  {
    if s != "" && s[|s| - 1] == '`' then DropTicks(s[..|s| - 1]) else s
  }

  /** Every fence goes, with the text stuck to it and the whitespace after that; so do
      backticks at the very end. */
  function Stripped(s: string): string
    decreases |s|, 1
  {
    var i := FirstFence(s);
    if i == |s| then DropTicks(s) else s[..i] + AfterFence(s[i + 3..])
  }

  function AfterFence(s: string): string
    decreases |s|, 0
  {
    var i := FirstSpace(s);
    if i == |s| then "" else Stripped(s[i + 1..])
  }

  /** The text between the newline after the first fence and the next fence. */
  function Block(s: string): string {
    var i := FirstFence(s);
    if i == |s| then "" else AfterOpening(s[i + 3..])
  }

  function AfterOpening(s: string): string {
    var i := FirstNewline(s);
    if i == |s| then "" else Body(s[i + 1..])
  }

  function Body(s: string): string {
    var i := FirstFence(s);
    if i == |s| then DropTicks(s) else s[..i]
  }

  // ---- Facts about the first fence.

  function Ticks(n: nat): (s: string)
    ensures |s| == n && forall i :: 0 <= i < n ==> s[i] == '`'
  {
    seq(n, _ => '`')
  }

  lemma FirstFenceIs(s: string, i: nat)
    requires i <= |s| && (i < |s| ==> IsFence(s, i))
    requires forall j :: 0 <= j < i ==> !IsFence(s, j)
    ensures FirstFence(s) == i
  {
  }

  /** A short run of backticks cut off by another character belongs to no fence. */
  lemma FirstFenceShift(n: nat, c: char, t: string)
    requires n <= 2 && c != '`'
    ensures FirstFence(Ticks(n) + [c] + t) == n + 1 + FirstFence(t)
  {
    var s := Ticks(n) + [c] + t;
    var i := FirstFence(t);
    forall j | 0 <= j < n + 1 + i
      ensures !IsFence(s, j)
    {
      if j <= n {
        assert s[n] == c;
      } else {
        assert !IsFence(t, j - n - 1);
      }
    }
    FirstFenceIs(s, n + 1 + i);
  }

  lemma {:induction false} DropTicksShift(n: nat, c: char, t: string)
    requires c != '`'
    ensures DropTicks(Ticks(n) + [c] + t) == Ticks(n) + [c] + DropTicks(t)
  {
    var s := Ticks(n) + [c] + t;
    if t == "" {
      assert s == Ticks(n) + [c];
    } else if t[|t| - 1] == '`' {
      DropTicksShift(n, c, t[..|t| - 1]);
      assert s[..|s| - 1] == Ticks(n) + [c] + t[..|t| - 1];
    }
  }

  lemma {:induction false} DropAllTicks(n: nat)
    ensures DropTicks(Ticks(n)) == ""
  {
    if n > 0 {
      assert Ticks(n)[..n - 1] == Ticks(n - 1);
      DropAllTicks(n - 1);
    }
  }

  lemma StrippedShift(n: nat, c: char, t: string)
    requires n <= 2 && c != '`'
    ensures Stripped(Ticks(n) + [c] + t) == Ticks(n) + [c] + Stripped(t)
  {
    hide FirstFence, DropTicks, AfterFence, Ticks;
    var p, i := Ticks(n) + [c], FirstFence(t);
    FirstFenceShift(n, c, t);
    DropTicksShift(n, c, t);
    if i < |t| {
      assert (p + t)[n + 1 + i + 3..] == t[i + 3..];
      assert (p + t)[..n + 1 + i] == p + t[..i];
      assert p + t[..i] + AfterFence(t[i + 3..]) == p + (t[..i] + AfterFence(t[i + 3..]));
    }
  }

  lemma BlockShift(n: nat, c: char, t: string)
    requires n <= 2 && c != '`'
    ensures Block(Ticks(n) + [c] + t) == Block(t)
  {
    hide FirstFence, AfterOpening, Ticks;
    var p, i := Ticks(n) + [c], FirstFence(t);
    FirstFenceShift(n, c, t);
    if i < |t| {
      assert (p + t)[n + 1 + i + 3..] == t[i + 3..];
    }
  }

  lemma BodyShift(n: nat, c: char, t: string)
    requires n <= 2 && c != '`'
    ensures Body(Ticks(n) + [c] + t) == Ticks(n) + [c] + Body(t)
  {
    hide FirstFence, DropTicks, Ticks;
    var p, i := Ticks(n) + [c], FirstFence(t);
    FirstFenceShift(n, c, t);
    DropTicksShift(n, c, t);
    if i < |t| {
      assert (p + t)[..n + 1 + i] == p + t[..i];
    }
  }

  lemma FenceFirst(t: string)
    ensures Stripped(Ticks(3) + t) == AfterFence(t)
    ensures Block(Ticks(3) + t) == AfterOpening(t)
    ensures Body(Ticks(3) + t) == ""
  {
    var s := Ticks(3) + t;
    FirstFenceIs(s, 0);
    assert s[3..] == t;
  }

  lemma OnlyTicks(n: nat)
    requires n <= 2
    ensures Stripped(Ticks(n)) == "" && Block(Ticks(n)) == "" && Body(Ticks(n)) == ""
  {
    FirstFenceIs(Ticks(n), n);
    DropAllTicks(n);
  }

  // ---- The automata.

  datatype Mode = Normal | InBackticks | SkipContent | SearchStart | SkipLanguage | InCodeBlock | Done

  datatype Scan = Scan(mode: Mode, ticks: nat)

  /** One character of the plain processor. */
  function StepPlain(sc: Scan, c: char): (Scan, string) {
    match sc.mode
    case Normal => if c == '`' then (Scan(InBackticks, 1), "") else (sc, [c])
    case InBackticks =>
      if c == '`' then
        if sc.ticks + 1 == CODE_FENCE_BACKTICK_COUNT then (Scan(SkipContent, 0), "")
        else (Scan(InBackticks, sc.ticks + 1), "")
      else (Scan(Normal, 0), Ticks(sc.ticks) + [c])
    case SkipContent => if IsSpace(c) then (Scan(Normal, sc.ticks), "") else (sc, "")
    case _ => (sc, "")
  }

  /** One character of the processor for answers that start with a backtick. */
  function StepBlock(sc: Scan, c: char): (Scan, string) {
    match sc.mode
    case SearchStart =>
      if c == '`' then
        if sc.ticks + 1 == CODE_FENCE_BACKTICK_COUNT then (Scan(SkipLanguage, 0), "")
        else (Scan(SearchStart, sc.ticks + 1), "")
      else (Scan(SearchStart, 0), "")
    case SkipLanguage => if c == '\n' then (Scan(InCodeBlock, sc.ticks), "") else (sc, "")
    case InCodeBlock =>
      if c == '`' then
        if sc.ticks + 1 == CODE_FENCE_BACKTICK_COUNT then (Scan(Done, sc.ticks + 1), "")
        else (Scan(InCodeBlock, sc.ticks + 1), "")
      else (Scan(InCodeBlock, 0), Ticks(sc.ticks) + [c])
    case _ => (sc, "")
  }

  function Step(plain: bool, sc: Scan, c: char): (Scan, string) {
    if plain then StepPlain(sc, c) else StepBlock(sc, c)
  }

  function Feed(plain: bool, sc: Scan, s: string): (Scan, string)
    decreases |s|
  {
    if s == "" then (sc, "")
    else
      var (mid, first) := Step(plain, sc, s[0]);
      var (end, rest) := Feed(plain, mid, s[1..]);
      (end, first + rest)
  }

  function Start(plain: bool): Scan {
    Scan(if plain then Normal else SearchStart, 0)
  }

  /** The text a processor is meant to let through. */
  function Spec(plain: bool, s: string): string {
    if plain then Stripped(s) else Block(s)
  }

  /** What is still to come from `s`, given what was read before. */
  function Pending(sc: Scan, s: string): string {
    match sc.mode
    case Normal => Stripped(s)
    case InBackticks => Stripped(Ticks(sc.ticks) + s)
    case SkipContent => AfterFence(s)
    case SearchStart => Block(Ticks(sc.ticks) + s)
    case SkipLanguage => AfterOpening(s)
    case InCodeBlock => Body(Ticks(sc.ticks) + s)
    case Done => ""
  }

  predicate Reachable(plain: bool, sc: Scan) {
    && (plain <==> sc.mode in {Normal, InBackticks, SkipContent})
    && (sc.mode in {InBackticks, SearchStart, InCodeBlock} ==> sc.ticks <= 2)
    && (sc.mode in {Normal, SkipContent, SkipLanguage} ==> sc.ticks == 0)
  }

  lemma PendingStep(plain: bool, sc: Scan, c: char, t: string)
    requires Reachable(plain, sc)
    ensures var (sc', out) := Step(plain, sc, c);
      Reachable(plain, sc') && Pending(sc, [c] + t) == out + Pending(sc', t)
  {
    hide Stripped, Block, Body, AfterFence, AfterOpening;
    var n := sc.ticks;
    assert Ticks(n) + ([c] + t) == Ticks(n) + [c] + t;
    assert Ticks(0) == "" && Ticks(0) + t == t && Ticks(0) + [c] == [c];
    if sc.mode in {SkipContent, SkipLanguage} {
      SkipStep(c, t);
    } else if c != '`' && sc.mode != Done {
      StrippedShift(n, c, t);
      BlockShift(n, c, t);
      BodyShift(n, c, t);
    } else if sc.mode != Done {
      assert Ticks(n) + [c] == Ticks(n + 1);
      assert n == 2 ==> Ticks(n) + ([c] + t) == Ticks(3) + t;
      FenceFirst(t);
    }
  }

  lemma FirstOf(c: char, t: string)
    ensures FirstSpace([c] + t) == if IsSpace(c) then 0 else 1 + FirstSpace(t)
    ensures FirstNewline([c] + t) == if c == '\n' then 0 else 1 + FirstNewline(t)
  {
    assert ([c] + t)[1..] == t;
  }

  lemma SkipStep(c: char, t: string)
    ensures AfterFence([c] + t) == if IsSpace(c) then Stripped(t) else AfterFence(t)
    ensures AfterOpening([c] + t) == if c == '\n' then Body(t) else AfterOpening(t)
  {
    hide Stripped, Body, IsSpace, FirstSpace, FirstNewline;
    FirstOf(c, t);
    var s := [c] + t;
    forall i | 0 <= i <= |t|
      ensures s[i + 1..] == t[i..]
    {
    }
    assert s[0 + 1..] == t;
  }

  lemma PendingNothing(plain: bool, sc: Scan)
    requires Reachable(plain, sc)
    ensures Pending(sc, "") == ""
  {
    assert Ticks(sc.ticks) + "" == Ticks(sc.ticks);
    if sc.ticks <= 2 {
      OnlyTicks(sc.ticks);
    }
    OnlyTicks(0);
    assert Ticks(0) == "";
  }

  lemma {:induction false} FeedIsPending(plain: bool, sc: Scan, s: string)
    requires Reachable(plain, sc)
    ensures Feed(plain, sc, s).1 == Pending(sc, s)
    ensures Reachable(plain, Feed(plain, sc, s).0)
    decreases |s|
  {
    hide Pending, Step, Reachable;
    if s == "" {
      PendingNothing(plain, sc);
    } else {
      assert [s[0]] + s[1..] == s;
      PendingStep(plain, sc, s[0], s[1..]);
      FeedIsPending(plain, Step(plain, sc, s[0]).0, s[1..]);
    }
  }

  /** Reading a whole text, the automaton lets through exactly what the text function says. */
  lemma FeedIsSpec(plain: bool, s: string)
    ensures Feed(plain, Start(plain), s).1 == Spec(plain, s)
    ensures Reachable(plain, Feed(plain, Start(plain), s).0)
  {
    hide Stripped, Block;
    assert Ticks(0) + s == s;
    FeedIsPending(plain, Start(plain), s);
  }

  lemma {:induction false} FeedAppend(plain: bool, sc: Scan, a: string, b: string)
    ensures var (mid, first) := Feed(plain, sc, a);
      var (end, rest) := Feed(plain, mid, b);
      Feed(plain, sc, a + b) == (end, first + rest)
    decreases |a|
  {
    if a == "" {
      assert a + b == b;
      assert "" + Feed(plain, sc, b).1 == Feed(plain, sc, b).1;
    } else {
      hide Step;
      assert (a + b)[0] == a[0] && (a + b)[1..] == a[1..] + b;
      var (mid, out) := Step(plain, sc, a[0]);
      var (later, first) := Feed(plain, mid, a[1..]);
      var rest := Feed(plain, later, b).1;
      FeedAppend(plain, mid, a[1..], b);
      assert out + (first + rest) == out + first + rest;
    }
  }

  // ---- The processors.

  /** A result chunk, its text cleared in place when the processor passes it on. */
  class Chunk {
    var content: string

    constructor (content: string)
      ensures this.content == content
    {
      this.content := content;
    }
  }

  datatype Output = Original(chunk: Chunk) | Piece(text: string)

  /** What the chunks hold. */
  function Contents(chunks: seq<Chunk>): (texts: seq<string>)
    reads chunks
    ensures |texts| == |chunks| && forall i :: 0 <= i < |chunks| ==> texts[i] == chunks[i].content
  {
    if chunks == [] then [] else Contents(chunks[..|chunks| - 1]) + [chunks[|chunks| - 1].content]
  }

  /** The texts a processor finds in chunks that hold `contents`, having cleared those in
      `seen`: a chunk it is given again is empty. */
  function Found(chunks: seq<Chunk>, contents: seq<string>, seen: set<Chunk>): (texts: seq<string>)
    requires |contents| == |chunks|
    ensures |texts| == |chunks|
  {
    if chunks == [] then []
    else [if chunks[0] in seen then "" else contents[0]] + Found(chunks[1..], contents[1..], seen + {chunks[0]})
  }

  lemma FoundStep(chunks: seq<Chunk>, contents: seq<string>, i: nat, seen: set<Chunk>, texts: seq<string>)
    requires i < |chunks| == |contents| == |texts| && texts[i..] == Found(chunks[i..], contents[i..], seen)
    ensures texts[i] == if chunks[i] in seen then "" else contents[i]
    ensures texts[i + 1..] == Found(chunks[i + 1..], contents[i + 1..], seen + {chunks[i]})
  {
    assert chunks[i..][1..] == chunks[i + 1..] && contents[i..][1..] == contents[i + 1..];
    assert texts[i..][1..] == texts[i + 1..];
  }

  /** The piece due after each text: what the text so far lets through beyond what the text
      before it did. */
  function Pieces(plain: bool, texts: seq<string>): (pieces: seq<string>)
    ensures |pieces| == |texts|
  {
    if texts == [] then []
    else
      var before := texts[..|texts| - 1];
      Pieces(plain, before) + [Beyond(Spec(plain, Concat(texts)), |Spec(plain, Concat(before))|)]
  }

  function Beyond(s: string, n: nat): string {
    if n <= |s| then s[n..] else ""
  }

  /** Every chunk once, in order, each followed by its piece if that is not empty. */
  function Weave(chunks: seq<Chunk>, pieces: seq<string>): seq<Output>
    requires |pieces| == |chunks|
  {
    if chunks == [] then []
    else
      var last := |chunks| - 1;
      Weave(chunks[..last], pieces[..last]) + [Original(chunks[last])]
      + if pieces[last] == "" then [] else [Piece(pieces[last])]
  }

  /** What one more text adds. */
  lemma PieceIsFed(plain: bool, before: string, text: string)
    ensures var sc := Feed(plain, Start(plain), before).0;
      && Feed(plain, Start(plain), before + text).0 == Feed(plain, sc, text).0
      && Spec(plain, before + text) == Spec(plain, before) + Feed(plain, sc, text).1
      && Beyond(Spec(plain, before + text), |Spec(plain, before)|) == Feed(plain, sc, text).1
  {
    hide Spec, Feed;
    FeedAppend(plain, Start(plain), before, text);
    FeedIsSpec(plain, before);
    FeedIsSpec(plain, before + text);
  }

  /** However the text is cut, the pieces add up to what the whole text lets through. */
  lemma {:induction false} PiecesAddUp(plain: bool, texts: seq<string>)
    ensures Concat(Pieces(plain, texts)) == Spec(plain, Concat(texts))
  {
    hide Spec;
    if texts == [] {
      FeedIsSpec(plain, "");
    } else {
      var before, last := texts[..|texts| - 1], texts[|texts| - 1];
      assert texts == before + [last];
      ConcatSnoc(before, last);
      PieceIsFed(plain, Concat(before), last);
      PiecesAddUp(plain, before);
      ConcatSnoc(Pieces(plain, before), Beyond(Spec(plain, Concat(texts)), |Spec(plain, Concat(before))|));
    }
  }

  /** The texts of the chunks read so far, with the scan they leave behind. */
  lemma WeaveSnoc(plain: bool, chunks: seq<Chunk>, texts: seq<string>, chunk: Chunk, text: string)
    requires |texts| == |chunks|
    ensures var piece := Feed(plain, Feed(plain, Start(plain), Concat(texts)).0, text).1;
      Weave(chunks + [chunk], Pieces(plain, texts + [text]))
      == Weave(chunks, Pieces(plain, texts)) + [Original(chunk)] + if piece == "" then [] else [Piece(piece)]
    ensures Feed(plain, Start(plain), Concat(texts + [text])).0
         == Feed(plain, Feed(plain, Start(plain), Concat(texts)).0, text).0
  {
    hide Spec, Feed;
    assert (chunks + [chunk])[..|chunks|] == chunks && (texts + [text])[..|texts|] == texts;
    ConcatSnoc(texts, text);
    PieceIsFed(plain, Concat(texts), text);
    var pieces := Pieces(plain, texts + [text]);
    assert pieces[..|texts|] == Pieces(plain, texts);
  }

  lemma FeedOne(plain: bool, sc: Scan, s: string, done: string)
    requires s != ""
    ensures var (mid, out) := Step(plain, sc, s[0]);
      var (end, rest) := Feed(plain, mid, s[1..]);
      Feed(plain, sc, s).0 == end && done + Feed(plain, sc, s).1 == done + out + rest
  {
    hide Step;
    var (mid, out) := Step(plain, sc, s[0]);
    var rest := Feed(plain, mid, s[1..]).1;
    assert done + (out + rest) == done + out + rest;
  }

  lemma {:induction false} FeedDone(sc: Scan, s: string)
    requires sc.mode == Done
    ensures Feed(false, sc, s) == (sc, "")
  {
    if s != "" {
      FeedDone(sc, s[1..]);
      assert "" + "" == "";
    }
  }

  /** The state the two processors carry from chunk to chunk. */
  class Scanner {
    var state: Mode
    var backtickCount: nat

    function Now(): Scan
      reads this
    {
      Scan(state, backtickCount)
    }

    constructor (plain: bool)
      ensures Now() == Start(plain)
    {
      state, backtickCount := if plain then Normal else SearchStart, 0;
    }

    method PlainChar(c: char) returns (out: string)
      modifies this
      ensures (Now(), out) == StepPlain(old(Now()), c)
    {
      out := "";
      if state == Normal {
        if c == '`' {
          state, backtickCount := InBackticks, 1;
        } else {
          out := [c];
        }
      } else if state == InBackticks {
        if c == '`' {
          backtickCount := backtickCount + 1;
          if backtickCount == CODE_FENCE_BACKTICK_COUNT {
            state, backtickCount := SkipContent, 0;
          }
        } else {
          out := Ticks(backtickCount) + [c];
          state, backtickCount := Normal, 0;
        }
      } else if state == SkipContent && IsSpace(c) {
        state := Normal;
      }
    }

    method BlockChar(c: char) returns (out: string)
      modifies this
      ensures (Now(), out) == StepBlock(old(Now()), c)
    {
      out := "";
      if state == SearchStart {
        if c == '`' {
          backtickCount := backtickCount + 1;
          if backtickCount == CODE_FENCE_BACKTICK_COUNT {
            state, backtickCount := SkipLanguage, 0;
          }
        } else {
          backtickCount := 0;
        }
      } else if state == SkipLanguage {
        if c == '\n' {
          state := InCodeBlock;
        }
      } else if state == InCodeBlock {
        if c == '`' {
          backtickCount := backtickCount + 1;
          if backtickCount == CODE_FENCE_BACKTICK_COUNT {
            state := Done;
          }
        } else {
          assert Ticks(0) + [c] == [c];
          if backtickCount > 0 {
            out := Ticks(backtickCount);
            backtickCount := 0;
          }
          out := out + [c];
        }
      }
    }

    /** The inner loop of either processor: one chunk's text. */
    method Read(plain: bool, content: string) returns (newPiece: string)
      modifies this
      ensures (Now(), newPiece) == Feed(plain, old(Now()), content)
    {
      hide Feed, StepPlain, StepBlock;
      newPiece := "";
      var i := 0;
      ghost var whole := Feed(plain, Now(), content);
      assert content[0..] == content && newPiece + whole.1 == whole.1;
      while i < |content| && (plain || state != Done)
        invariant 0 <= i <= |content|
        invariant whole.0 == Feed(plain, Now(), content[i..]).0
        invariant whole.1 == newPiece + Feed(plain, Now(), content[i..]).1
      {
        assert content[i..][0] == content[i] && content[i..][1..] == content[i + 1..];
        FeedOne(plain, Now(), content[i..], newPiece);
        var out;
        if plain {
          out := PlainChar(content[i]);
        } else {
          out := BlockChar(content[i]);
        }
        newPiece := newPiece + out;
        i := i + 1;
      }
      if i < |content| {
        FeedDone(Now(), content[i..]);
      } else {
        assert content[i..] == "";
        FeedNothing(plain, Now());
      }
      assert newPiece + "" == newPiece;
    }
  }

  lemma FeedNothing(plain: bool, sc: Scan)
    ensures Feed(plain, sc, "") == (sc, "")
  {
  }

  /** What a processor does with one chunk: take its text away and read it. */
  method ReadChunk(plain: bool, scanner: Scanner, chunk: Chunk) returns (newPiece: string)
    modifies scanner, chunk
    ensures chunk.content == ""
    ensures (scanner.Now(), newPiece) == Feed(plain, old(scanner.Now()), old(chunk.content))
  {
    hide Feed;
    newPiece := "";
    if chunk.content != "" {
      var content := chunk.content;
      chunk.content := "";
      newPiece := scanner.Read(plain, content);
    } else {
      FeedNothing(plain, scanner.Now());
    }
  }

  /** `_code_block_mode_stream_processor` (plain) and `..._with_backtick` (not plain): the
      generator's yields are `out`, and every chunk it is given loses its text in place. */
  method StripFences(plain: bool, chunks: seq<Chunk>) returns (out: seq<Output>)
    modifies chunks
    ensures out == Weave(chunks, Pieces(plain, Found(chunks, old(Contents(chunks)), {})))
    ensures forall i :: 0 <= i < |chunks| ==> chunks[i].content == ""
  {
    hide Feed, Weave, Pieces, Found, Concat, Contents;
    var scanner := new Scanner(plain);
    ghost var contents, seen: set<Chunk> := Contents(chunks), {};
    ghost var texts := Found(chunks, contents, {});
    out := [];
    NothingRead(plain);
    assert chunks[0..] == chunks && texts[0..] == texts && contents[0..] == contents;
    for i := 0 to |chunks|
      invariant fresh(scanner)
      invariant forall j :: 0 <= j < |chunks| ==> chunks[j].content == if chunks[j] in seen then "" else contents[j]
      invariant forall j :: 0 <= j < i ==> chunks[j] in seen
      invariant texts[i..] == Found(chunks[i..], contents[i..], seen)
      invariant scanner.Now() == Feed(plain, Start(plain), Concat(texts[..i])).0
      invariant out == Weave(chunks[..i], Pieces(plain, texts[..i]))
    {
      FoundStep(chunks, contents, i, seen, texts);
      WeaveNext(plain, chunks, texts, i);
      var newPiece := ReadChunk(plain, scanner, chunks[i]);
      seen := seen + {chunks[i]};
      out := out + [Original(chunks[i])] + if newPiece == "" then [] else [Piece(newPiece)];
    }
    assert chunks[..|chunks|] == chunks && texts[..|texts|] == texts;
  }

  lemma WeaveNext(plain: bool, chunks: seq<Chunk>, texts: seq<string>, i: nat)
    requires i < |chunks| == |texts|
    ensures var piece := Feed(plain, Feed(plain, Start(plain), Concat(texts[..i])).0, texts[i]).1;
      Weave(chunks[..i + 1], Pieces(plain, texts[..i + 1]))
      == Weave(chunks[..i], Pieces(plain, texts[..i])) + [Original(chunks[i])] + if piece == "" then [] else [Piece(piece)]
    ensures Feed(plain, Start(plain), Concat(texts[..i + 1])).0
         == Feed(plain, Feed(plain, Start(plain), Concat(texts[..i])).0, texts[i]).0
  {
    hide Feed, Weave, Pieces;
    assert chunks[..i + 1] == chunks[..i] + [chunks[i]] && texts[..i + 1] == texts[..i] + [texts[i]];
    WeaveSnoc(plain, chunks[..i], texts[..i], chunks[i], texts[i]);
  }

  lemma NothingRead(plain: bool)
    ensures Weave([], Pieces(plain, [])) == []
    ensures Feed(plain, Start(plain), Concat([])) == (Start(plain), "")
  {
    FeedNothing(plain, Start(plain));
  }

  // ---- What the text functions promise.

  predicate EndsInTick(s: string) {
    s != "" && s[|s| - 1] == '`'
  }

  lemma NoFenceAppend(a: string, b: string)
    requires !EndsInTick(a) && !HasFence(a) && !HasFence(b)
    ensures !HasFence(a + b)
    ensures !EndsInTick(b) ==> !EndsInTick(a + b)
  {
    forall j | 0 <= j < |a + b|
      ensures !IsFence(a + b, j)
    {
      if j < |a| {
        assert !IsFence(a, j);
        assert (a + b)[|a| - 1] == a[|a| - 1];
      } else {
        assert !IsFence(b, j - |a|);
      }
    }
    FirstFenceIs(a + b, |a + b|);
  }

  lemma NoFenceInFront(s: string, i: nat)
    requires i <= |s| && forall j :: 0 <= j < i ==> !IsFence(s, j)
    ensures !HasFence(s[..i])
    ensures i < |s| && IsFence(s, i) ==> !EndsInTick(s[..i])
  {
    hide FirstFence;
    forall k | 0 <= k < i
      ensures !IsFence(s[..i], k)
    {
      assert !IsFence(s, k);
    }
    FirstFenceIs(s[..i], i);
    assert i > 0 ==> !IsFence(s, i - 1);
  }

  /** The plain processor's output, one fence at a time. */
  lemma StrippedStep(s: string)
    ensures FirstFence(s) == |s| ==> Stripped(s) == DropTicks(s)
    ensures FirstFence(s) < |s| ==>
      var after := s[FirstFence(s) + 3..];
      Stripped(s) == s[..FirstFence(s)] + if FirstSpace(after) == |after| then "" else Stripped(after[FirstSpace(after) + 1..])
  {
    hide FirstFence, FirstSpace, DropTicks;
  }

  /** No fence survives in the plain processor's output. */
  lemma {:induction false} StrippedHasNoFence(s: string)
    ensures !HasFence(Stripped(s)) && !EndsInTick(Stripped(s))
    decreases |s|
  {
    hide Stripped, FirstFence, FirstSpace, DropTicks, HasFence, EndsInTick;
    StrippedStep(s);
    var i := FirstFence(s);
    FirstFenceBounds(s);
    if i == |s| {
      DropTicksEnds(s);
      NoFenceInFront(s, |DropTicks(s)|);
      assert s[..|DropTicks(s)|] == DropTicks(s);
    } else {
      var after := s[i + 3..];
      var j := FirstSpace(after);
      SpaceBounds(after);
      NoFenceInFront(s, i);
      if j < |after| {
        StrippedHasNoFence(after[j + 1..]);
        NoFenceAppend(s[..i], Stripped(after[j + 1..]));
      } else {
        assert s[..i] + "" == s[..i];
      }
    }
  }

  lemma FirstFenceBounds(s: string)
    ensures FirstFence(s) <= |s| && (FirstFence(s) < |s| ==> IsFence(s, FirstFence(s)))
    ensures forall j :: 0 <= j < FirstFence(s) ==> !IsFence(s, j)
  {
  }

  lemma SpaceBounds(s: string)
    ensures FirstSpace(s) <= |s|
  {
  }

  lemma DropTicksEnds(s: string)
    ensures DropTicks(s) <= s && !EndsInTick(DropTicks(s))
  {
  }

  /** Exactly which texts the plain processor leaves alone. */
  lemma {:induction false} StrippedIsIdentityExactly(s: string)
    ensures Stripped(s) == s <==> !HasFence(s) && !EndsInTick(s)
  {
    if HasFence(s) {
      StrippedHasNoFence(s);
    }
  }

  /** An unclosed text loses its trailing backticks, of which there are at most two. */
  lemma {:induction false} DropsAtMostTwo(s: string)
    requires !HasFence(s)
    ensures |s| <= |DropTicks(s)| + 2 && s == DropTicks(s) + Ticks(|s| - |DropTicks(s)|)
  {
    var n := |s| - |DropTicks(s)|;
    DroppedAreTicks(s);
    if n >= 3 {
      assert IsFence(s, |s| - 3);
    }
  }

  lemma {:induction false} DroppedAreTicks(s: string)
    ensures s == DropTicks(s) + Ticks(|s| - |DropTicks(s)|)
  {
    if EndsInTick(s) {
      var shorter := s[..|s| - 1];
      DroppedAreTicks(shorter);
      assert Ticks(|s| - |DropTicks(s)|) == Ticks(|shorter| - |DropTicks(s)|) + ['`'];
    }
  }

  lemma BlockIs(s: string, i: nat, inner: string, j: nat, closed: string, k: nat)
    requires i + 3 <= |s| && FirstFence(s) == i && inner == s[i + 3..]
    requires j < |inner| && FirstNewline(inner) == j && closed == inner[j + 1..]
    requires k < |closed| && FirstFence(closed) == k
    ensures Block(s) == closed[..k]
  {
    hide FirstFence, FirstNewline, DropTicks;
  }

  const FENCE := "```"

  /** A closed block: between the newline after the first fence and the next fence. */
  lemma BlockOfClosed(before: string, language: string, body: string, after: string)
    requires !HasFence(before) && !EndsInTick(before)
    requires '\n' !in language
    requires !HasFence(body) && !EndsInTick(body)
    ensures Block(before + FENCE + language + "\n" + body + FENCE + after) == body
  {
    hide FirstFence, FirstNewline, Block;
    var closed := body + (FENCE + after);
    var inner := language + "\n" + closed;
    var s := before + (FENCE + inner);
    Regroup(before, FENCE, language, "\n", body, after);
    FirstFenceAfter(before, inner);
    DropFront(before, FENCE, inner);
    FirstNewlineAfter(language, closed);
    DropFront(language, "\n", closed);
    FirstFenceAfter(body, after);
    DropFront(body, FENCE, after);
    BlockIs(s, |before|, inner, |language|, closed, |body|);
  }

  lemma OpenBlockIs(s: string, i: nat, inner: string, j: nat, body: string)
    requires i + 3 <= |s| && FirstFence(s) == i && inner == s[i + 3..]
    requires j < |inner| && FirstNewline(inner) == j && body == inner[j + 1..]
    requires FirstFence(body) == |body|
    ensures Block(s) == DropTicks(body)
  {
    hide FirstFence, FirstNewline, DropTicks;
  }

  lemma RegroupOpen(a: string, fence: string, b: string, newline: string, c: string)
    ensures a + fence + b + newline + c == a + (fence + (b + newline + c))
  {
  }

  lemma WholeHasNoFence(s: string)
    requires !HasFence(s)
    ensures FirstFence(s) == |s|
  {
  }

  /** A block that is not closed: everything behind that newline but trailing backticks. */
  lemma BlockOfUnclosed(before: string, language: string, body: string)
    requires !HasFence(before) && !EndsInTick(before)
    requires '\n' !in language && !HasFence(body)
    ensures Block(before + FENCE + language + "\n" + body) == DropTicks(body)
  {
    hide FirstFence, FirstNewline, DropTicks, Block, HasFence, EndsInTick;
    var inner := language + "\n" + body;
    var s := before + FENCE + language + "\n" + body;
    RegroupOpen(before, FENCE, language, "\n", body);
    FirstFenceAfter(before, inner);
    DropFront(before, FENCE, inner);
    FirstNewlineAfter(language, body);
    DropFront(language, "\n", body);
    WholeHasNoFence(body);
    OpenBlockIs(s, |before|, inner, |language|, body);
  }

  /** Without a fence, or without a newline after it, there is no block. */
  lemma NoBlock(before: string, language: string)
    requires !HasFence(before) && !EndsInTick(before) && '\n' !in language
    ensures Block(before) == "" && Block(before + FENCE + language) == ""
  {
    hide FirstFence, FirstNewline;
    FirstFenceBounds(before);
    assert before + FENCE + language == before + (FENCE + language);
    FirstFenceAfter(before, language);
    DropFront(before, FENCE, language);
    NoNewline(language);
  }

  lemma {:induction false} NoNewline(s: string)
    requires '\n' !in s
    ensures FirstNewline(s) == |s|
  {
    if s != "" {
      NoNewline(s[1..]);
    }
  }

  lemma {:induction false} FirstSpaceAfter(a: string, b: string)
    requires forall c <- a :: !IsSpace(c)
    requires b == "" || IsSpace(b[0])
    ensures FirstSpace(a + b) == |a|
  {
    hide IsSpace;
    if a != "" {
      assert (a + b)[1..] == a[1..] + b;
      FirstSpaceAfter(a[1..], b);
    }
  }

  lemma FencedIs(s: string, i: nat, inner: string, j: nat)
    requires i + 3 <= |s| && FirstFence(s) == i && inner == s[i + 3..] && FirstSpace(inner) == j && j <= |inner|
    ensures Stripped(s) == s[..i] + if j == |inner| then "" else Stripped(inner[j + 1..])
  {
    hide FirstFence, FirstSpace, DropTicks, Stripped;
    StrippedStep(s);
  }

  /** A fence in a plain answer goes with the text stuck to it and one whitespace behind that;
      what follows is treated likewise. */
  lemma StrippedOfFenced(before: string, glued: string, space: char, rest: string)
    requires !HasFence(before) && !EndsInTick(before)
    requires (forall c <- glued :: !IsSpace(c)) && IsSpace(space)
    ensures Stripped(before + FENCE + glued + [space] + rest) == before + Stripped(rest)
  {
    hide FirstFence, FirstSpace, IsSpace, Stripped, HasFence, EndsInTick;
    var inner, s := glued + [space] + rest, before + FENCE + glued + [space] + rest;
    RegroupOpen(before, FENCE, glued, [space], rest);
    FirstFenceAfter(before, inner);
    DropFront(before, FENCE, inner);
    assert inner == glued + ([space] + rest);
    FirstSpaceAfter(glued, [space] + rest);
    DropFront(glued, [space], rest);
    FencedIs(s, |before|, inner, |glued|);
  }

  /** Without such a whitespace nothing follows. */
  lemma StrippedOfOpen(before: string, glued: string)
    requires !HasFence(before) && !EndsInTick(before) && forall c <- glued :: !IsSpace(c)
    ensures Stripped(before + FENCE + glued) == before
  {
    hide FirstFence, FirstSpace, IsSpace, Stripped, HasFence, EndsInTick;
    var s := before + FENCE + glued;
    assert s == before + (FENCE + glued);
    FirstFenceAfter(before, glued);
    DropFront(before, FENCE, glued);
    assert glued + "" == glued && before + "" == before;
    FirstSpaceAfter(glued, "");
    FencedIs(s, |before|, glued, |glued|);
  }

  lemma Regroup(a: string, fence: string, b: string, newline: string, c: string, d: string)
    ensures a + fence + b + newline + c + fence + d == a + (fence + (b + newline + (c + (fence + d))))
  {
  }

  lemma DropFront(a: string, mark: string, b: string)
    ensures (a + (mark + b))[|a| + |mark|..] == b && (a + (mark + b))[..|a|] == a
    ensures (a + mark + b)[|a| + |mark|..] == b
  {
  }

  lemma FirstFenceAfter(a: string, b: string)
    requires !HasFence(a) && !EndsInTick(a)
    ensures FirstFence(a + (FENCE + b)) == |a|
  {
    var s := a + (FENCE + b);
    forall j | 0 <= j < |a|
      ensures !IsFence(s, j)
    {
      assert !IsFence(a, j) && s[|a| - 1] == a[|a| - 1];
    }
    FirstFenceIs(s, |a|);
  }

  lemma {:induction false} FirstNewlineAfter(a: string, b: string)
    requires '\n' !in a
    ensures FirstNewline(a + "\n" + b) == |a|
  {
    if a != "" {
      assert (a + "\n" + b)[1..] == a[1..] + "\n" + b;
      FirstNewlineAfter(a[1..], b);
    }
  }
}
