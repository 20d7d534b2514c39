// Event framing of a streamed response: newline translation carried across reads, then
// splitting on the blank line. Section 9.2.5 of the WHATWG HTML Living Standard lets a
// line end with LF, CR or CRLF, so a read may stop in the middle of a line ending.
module EventStream {
  import opened Text

  /** `s.replace("\r\n", "\n")`. */
  function ReplaceCrLf(s: string): string {
    if s == "" then ""
    else if |s| >= 2 && s[0] == '\r' && s[1] == '\n' then "\n" + ReplaceCrLf(s[2..])
    else [s[0]] + ReplaceCrLf(s[1..])
  }

  /** `s.replace("\r", "\n")`. */
  function ReplaceCr(s: string): string {
    if s == "" then "" else [if s[0] == '\r' then '\n' else s[0]] + ReplaceCr(s[1..])
  }

  /** Every line ending of `s` turned into one LF: what the framing is meant to compute. */
  function Translate(s: string): (t: string)
    ensures '\r' !in t
    ensures s == "" <==> t == ""
  {
    if s == "" then "" else [if s[0] == '\r' then '\n' else s[0]] + Translate(AfterFirst(s))
  }

  /** What follows the first character, a CRLF counting as one. */
  function AfterFirst(s: string): (t: string)
    requires s != ""
    ensures |t| < |s|
  {
    if |s| >= 2 && s[0] == '\r' && s[1] == '\n' then s[2..] else s[1..]
  }

  lemma {:induction false} TwoReplacesTranslate(s: string)
    ensures ReplaceCr(ReplaceCrLf(s)) == Translate(s)
  {
    if s == "" {
    } else if |s| >= 2 && s[0] == '\r' && s[1] == '\n' {
      TwoReplacesTranslate(s[2..]);
      assert ("\n" + ReplaceCrLf(s[2..]))[1..] == ReplaceCrLf(s[2..]);
    } else {
      TwoReplacesTranslate(s[1..]);
      assert ([s[0]] + ReplaceCrLf(s[1..]))[1..] == ReplaceCrLf(s[1..]);
    }
  }

  predicate EndsWith(s: string, c: char) {
    s != "" && s[|s| - 1] == c
  }

  lemma AfterFirstAppend(a: string, b: string)
    requires a != "" && !(EndsWith(a, '\r') && b != "" && b[0] == '\n')
    ensures AfterFirst(a + b) == AfterFirst(a) + b
    ensures EndsWith(AfterFirst(a), '\r') ==> EndsWith(a, '\r')
  {
  }

  /** Translation may be done piecewise unless the cut falls inside a CRLF. */
  lemma {:induction false} TranslateAppend(a: string, b: string)
    requires !(EndsWith(a, '\r') && b != "" && b[0] == '\n')
    ensures Translate(a + b) == Translate(a) + Translate(b)
    decreases |a|
  {
    hide AfterFirst;
    if a == "" {
      assert a + b == b;
    } else {
      AfterFirstAppend(a, b);
      TranslateAppend(AfterFirst(a), b);
      var first := [if a[0] == '\r' then '\n' else a[0]];
      assert first + (Translate(AfterFirst(a)) + Translate(b)) == (first + Translate(AfterFirst(a))) + Translate(b);
    }
  }

  /** The text the decoder may let go of: all of it, but for a CR at the very end. */
  function Settled(s: string): string {
    if EndsWith(s, '\r') then s[..|s| - 1] else s
  }

  /** `io.IncrementalNewlineDecoder(..., translate=True)` behind the character decoder. */
  class NewlineDecoder {
    var pendingCr: bool
    ghost var fed: string
    ghost var produced: string

    ghost predicate Valid()
      reads this
    {
      pendingCr == EndsWith(fed, '\r') && produced == Translate(Settled(fed))
    }

    constructor ()
      ensures Valid() && fed == "" && produced == ""
    {
      pendingCr, fed, produced := false, "", "";
    }

    method Decode(input: string, final: bool) returns (output: string)
      requires Valid()
      modifies this
      ensures fed == old(fed) + input
      ensures produced == old(produced) + output
      ensures !final ==> Valid()
      ensures final ==> produced == Translate(fed)
    {
      hide Translate, ReplaceCr, ReplaceCrLf;
      ghost var base := Settled(fed);
      ghost var before := fed;
      output := input;
      if pendingCr && (output != "" || final) {
        output := "\r" + output;
        pendingCr := false;
      }
      fed := fed + input;
      assert !pendingCr ==> fed == base + output;
      if EndsWith(output, '\r') && !final {
        assert fed == base + output;
        output := output[..|output| - 1];
        pendingCr := true;
        assert Settled(fed) == base + output;
      }
      assert input == "" && !final ==> fed == before;
      ghost var text := output;
      TwoReplacesTranslate(text);
      TranslateAppend(base, text);
      output := ReplaceCr(ReplaceCrLf(output));
      produced := produced + output;
    }
  }

  /** `s.split("\n\n")`: leftmost, non-overlapping. */
  function Split(s: string): (parts: seq<string>)
    ensures parts != []
  {
    if |s| < 2 then [s]
    else if s[0] == '\n' && s[1] == '\n' then [""] + Split(s[2..])
    else PutFirst(s[0], Split(s[1..]))
  }

  function PutFirst(c: char, parts: seq<string>): (r: seq<string>)
    requires parts != []
    ensures |r| == |parts|
  {
    [[c] + parts[0]] + parts[1..]
  }

  lemma PutFirstAppend(c: char, a: seq<string>, b: seq<string>)
    requires a != []
    ensures PutFirst(c, a + b) == PutFirst(c, a) + b
  {
    assert (a + b)[1..] == a[1..] + b;
  }

  function Last(parts: seq<string>): string
    requires parts != []
  {
    parts[|parts| - 1]
  }

  function AllButLast(parts: seq<string>): seq<string>
    requires parts != []
  {
    parts[..|parts| - 1]
  }

  lemma SplitStep(s: string)
    ensures |s| < 2 ==> Split(s) == [s]
    ensures |s| >= 2 && s[0] == '\n' && s[1] == '\n' ==> Split(s) == [""] + Split(s[2..])
    ensures |s| >= 2 && !(s[0] == '\n' && s[1] == '\n') ==> Split(s) == PutFirst(s[0], Split(s[1..]))
  {
  }

  lemma AppendAtBlank(rest: seq<string>, more: seq<string>)
    requires rest != []
    ensures AllButLast([""] + rest) == [""] + AllButLast(rest) && Last([""] + rest) == Last(rest)
    ensures [""] + (AllButLast(rest) + more) == ([""] + AllButLast(rest)) + more
  {
  }

  lemma AppendAtFirst(c: char, rest: seq<string>, more: seq<string>)
    requires |rest| > 1
    ensures AllButLast(PutFirst(c, rest)) == PutFirst(c, AllButLast(rest)) && Last(PutFirst(c, rest)) == Last(rest)
    ensures PutFirst(c, AllButLast(rest) + more) == PutFirst(c, AllButLast(rest)) + more
  {
    PutFirstAppend(c, AllButLast(rest), more);
  }

  /** Text that arrives later can only affect the piece that was still unterminated. */
  lemma {:induction false} SplitAppend(a: string, b: string)
    ensures Split(a + b) == AllButLast(Split(a)) + Split(Last(Split(a)) + b)
  {
    SplitStep(a);
    SplitStep(a + b);
    hide Split, PutFirst;
    if |a| < 2 {
      assert AllButLast([a]) == [] && Last([a]) == a;
      assert [] + Split(a + b) == Split(a + b);
    } else if a[0] == '\n' && a[1] == '\n' {
      var rest := Split(a[2..]);
      assert (a + b)[2..] == a[2..] + b;
      SplitAppend(a[2..], b);
      AppendAtBlank(rest, Split(Last(rest) + b));
    } else {
      var rest := Split(a[1..]);
      assert (a + b)[1..] == a[1..] + b;
      SplitAppend(a[1..], b);
      if |rest| == 1 {
        SplitOnePiece(a);
        assert AllButLast([a]) == [] && Last([a]) == a;
        assert [] + Split(a + b) == Split(a + b);
      } else {
        AppendAtFirst(a[0], rest, Split(Last(rest) + b));
      }
    }
  }

  lemma {:induction false} SplitOnePiece(s: string)
    requires |Split(s)| == 1
    ensures Split(s) == [s]
  {
    if |s| >= 2 && !(s[0] == '\n' && s[1] == '\n') {
      SplitOnePiece(s[1..]);
      assert [s[0]] + s[1..] == s;
    }
  }

  /** One round of the loop: cutting only the pending text is cutting all the text so far. */
  lemma CutPending(events: seq<string>, pending: string, before: string, text: string)
    requires Split(before) == events + [pending]
    ensures Split(before + text) == events + Split(pending + text)
    ensures events + Split(pending + text)
         == events + AllButLast(Split(pending + text)) + [Last(Split(pending + text))]
  {
    hide Split;
    SplitAppend(before, text);
    assert AllButLast(events + [pending]) == events;
    var parts := Split(pending + text);
    assert parts == AllButLast(parts) + [Last(parts)];
  }

  /** `_iter_stream_events` for the default delimiter; `pieces` and `last` are what the
      character decoder makes of each read and of the end of the body. */
  method IterStreamEvents(pieces: seq<string>, last: string) returns (events: seq<string>)
    ensures events == Split(Translate(Concat(pieces) + last))
  {
    var decoder := new NewlineDecoder();
    var pending := "";
    events := [];
    SplitWhole("");
    hide Split, Translate, Settled;
    for i := 0 to |pieces|
      invariant decoder.Valid() && fresh(decoder)
      invariant decoder.fed == Concat(pieces[..i])
      invariant Split(decoder.produced) == events + [pending]
    {
      ghost var before := decoder.produced;
      var text := decoder.Decode(pieces[i], false);
      CutPending(events, pending, before, text);
      pending := pending + text;
      var parts := Split(pending);
      events := events + AllButLast(parts);
      pending := Last(parts);
      assert pieces[..i + 1] == pieces[..i] + [pieces[i]];
      ConcatSnoc(pieces[..i], pieces[i]);
    }
    assert pieces[..|pieces|] == pieces;
    ghost var before := decoder.produced;
    var text := decoder.Decode(last, true);
    CutPending(events, pending, before, text);
    events := events + Split(pending + text);
  }

  function Join(parts: seq<string>): string
    requires parts != []
  {
    if |parts| == 1 then parts[0] else parts[0] + "\n\n" + Join(parts[1..])
  }

  ghost predicate HasBlankLine(s: string) {
    exists i :: 0 <= i < |s| - 1 && s[i] == '\n' && s[i + 1] == '\n'
  }

  /** A cutting of `s` at blank lines, each cut as early as possible. */
  ghost predicate IsCutting(parts: seq<string>, s: string) {
    && parts != []
    && Join(parts) == s
    && (forall i :: 0 <= i < |parts| ==> !HasBlankLine(parts[i]))
    && (forall i :: 0 <= i < |parts| - 1 ==> !EndsWith(parts[i], '\n'))
  }

  /** An event that is complete is handed over whole, whatever follows it. */
  lemma {:induction false} SplitFirst(part: string, rest: string)
    requires !HasBlankLine(part) && !EndsWith(part, '\n')
    ensures Split(part + "\n\n" + rest) == [part] + Split(rest)
  {
    var s := part + "\n\n" + rest;
    if part == "" {
      assert s[2..] == rest;
    } else {
      assert s[1..] == part[1..] + "\n\n" + rest;
      assert s[0] == part[0] && (|part| >= 2 ==> s[1] == part[1]);
      forall i | 0 <= i < |part[1..]| - 1
        ensures !(part[1..][i] == '\n' && part[1..][i + 1] == '\n')
      {
        assert part[1..][i] == part[i + 1] && part[1..][i + 1] == part[i + 2];
      }
      SplitFirst(part[1..], rest);
      PutFirstAppend(part[0], [part[1..]], Split(rest));
      assert [part[0]] + part[1..] == part;
    }
  }

  lemma {:induction false} SplitWhole(s: string)
    requires !HasBlankLine(s)
    ensures Split(s) == [s]
  {
    if |s| >= 2 {
      forall i | 0 <= i < |s[1..]| - 1
        ensures !(s[1..][i] == '\n' && s[1..][i + 1] == '\n')
      {
        assert s[1..][i] == s[i + 1] && s[1..][i + 1] == s[i + 2];
      }
      assert s[0] == '\n' ==> s[1] != '\n';
      SplitWhole(s[1..]);
      assert [s[0]] + s[1..] == s;
    }
  }

  lemma {:induction false} SplitIsCutting(s: string)
    ensures IsCutting(Split(s), s)
  {
    if |s| < 2 {
    } else if s[0] == '\n' && s[1] == '\n' {
      SplitIsCutting(s[2..]);
      assert Split(s)[1..] == Split(s[2..]);
      assert s == "\n\n" + s[2..];
    } else {
      SplitIsCutting(s[1..]);
      SplitHead(s[1..]);
      PutFirstCutting(s[0], Split(s[1..]), s[1..]);
      assert [s[0]] + s[1..] == s;
    }
  }

  lemma PutFirstCutting(c: char, parts: seq<string>, s: string)
    requires IsCutting(parts, s)
    requires c == '\n' && parts[0] != "" ==> parts[0][0] != '\n'
    requires c == '\n' && parts[0] == "" ==> |parts| == 1
    ensures IsCutting(PutFirst(c, parts), [c] + s)
  {
    var longer := PutFirst(c, parts);
    assert longer[1..] == parts[1..];
    assert Join(longer) == [c] + s by {
      if |parts| > 1 {
        assert [c] + parts[0] + "\n\n" + Join(parts[1..]) == [c] + (parts[0] + "\n\n" + Join(parts[1..]));
      }
    }
    forall i | 0 <= i < |longer[0]| - 1
      ensures !(longer[0][i] == '\n' && longer[0][i + 1] == '\n')
    {
      assert longer[0][i + 1] == parts[0][i];
      if i > 0 {
        assert longer[0][i] == parts[0][i - 1];
      }
    }
  }

  lemma SplitHead(s: string)
    requires s != ""
    ensures Split(s)[0] != "" ==> Split(s)[0][0] == s[0]
    ensures Split(s)[0] == "" ==> s[0] == '\n' && |s| >= 2 && s[1] == '\n'
  {
  }

  /** The events are the one and only leftmost cutting of the translated text. */
  lemma {:induction false} SplitIsTheCutting(parts: seq<string>, s: string)
    ensures parts == Split(s) <==> IsCutting(parts, s)
  {
    SplitIsCutting(s);
    if IsCutting(parts, s) {
      if |parts| == 1 {
        SplitWhole(s);
      } else {
        assert s == parts[0] + "\n\n" + Join(parts[1..]);
        SplitFirst(parts[0], Join(parts[1..]));
        SplitIsTheCutting(parts[1..], Join(parts[1..]));
      }
    }
  }
}
