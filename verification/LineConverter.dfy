// The loop that turns the chunks of one invocation's reader into results, with its early
// exits and its count of rounds without a response.
module LineConverter {
  import opened Text

  /** The payload of a response line; `NoData` is a response event whose data is null. */
  datatype Response = Reply(data: string) | NoData | Error(message: string) | End

  /** How the loop is left: at the end mark or at missing data it just stops, otherwise it
      raises. `Exhausted` is the reader having no more chunks. */
  datatype Outcome = Exhausted | Stopped | ErrorRaised(message: string) | TimedOut | ParseFailed

  /** A chunk is a response, or nothing for a round without one. */
  type Chunk = Option<Response>

  predicate IsTerminal(chunk: Chunk, parse: string -> bool) {
    match chunk
    case None => false
    case Some(Reply(data)) => !parse(data)
    case Some(_) => true
  }

  /** The last `limit` rounds up to `k`, and at least round `k`, brought nothing. */
  predicate Silent(chunks: seq<Chunk>, limit: int, k: nat)
    requires k < |chunks|
  {
    k + 1 >= limit && chunks[k].None? && forall i :: k - limit < i <= k && 0 <= i ==> chunks[i].None?
  }

  /** The loop is left at chunk `k`. */
  predicate StopsAt(chunks: seq<Chunk>, limit: int, parse: string -> bool, k: nat)
    requires k < |chunks|
  {
    IsTerminal(chunks[k], parse) || Silent(chunks, limit, k)
  }

  /** The payloads among the chunks. */
  function Payloads(chunks: seq<Chunk>): (r: seq<string>) {
    if chunks == [] then []
    else
      var last := chunks[|chunks| - 1];
      Payloads(chunks[..|chunks| - 1]) + if last.Some? && last.value.Reply? then [last.value.data] else []
  }

  /** The first chunk the loop must stop at, or the number of chunks. */
  function FirstStop(chunks: seq<Chunk>, limit: int, parse: string -> bool, from: nat): (k: nat)
    requires from <= |chunks|
    ensures from <= k <= |chunks|
    ensures forall i :: from <= i < k ==> !StopsAt(chunks, limit, parse, i)
    ensures k < |chunks| ==> StopsAt(chunks, limit, parse, k)
    decreases |chunks| - from
  {
    if from == |chunks| || StopsAt(chunks, limit, parse, from) then from
    else FirstStop(chunks, limit, parse, from + 1)
  }

  lemma FirstStopIs(chunks: seq<Chunk>, limit: int, parse: string -> bool, k: nat)
    requires k <= |chunks| && forall i :: 0 <= i < k ==> !StopsAt(chunks, limit, parse, i)
    requires k < |chunks| ==> StopsAt(chunks, limit, parse, k)
    ensures FirstStop(chunks, limit, parse, 0) == k
  {
    hide StopsAt;
  }

  /** The loop reads up to the first chunk it must stop at and yields every payload before
      it. The end mark and missing data end it normally; an error is raised with its message,
      and so are a payload that does not parse and a silence as long as the timeout. */
  method Convert(chunks: seq<Chunk>, limit: int, parse: string -> bool) returns (yielded: seq<string>, outcome: Outcome)
    ensures var k := FirstStop(chunks, limit, parse, 0);
      && yielded == Payloads(chunks[..k])
      && (outcome == Exhausted <==> k == |chunks|)
      && (outcome == Stopped <==> k < |chunks| && (chunks[k] == Some(End) || chunks[k] == Some(NoData)))
      && (forall message :: outcome == ErrorRaised(message) <==> k < |chunks| && chunks[k] == Some(Error(message)))
      && (outcome == ParseFailed <==> k < |chunks| && chunks[k].Some? && chunks[k].value.Reply?)
      && (outcome == TimedOut <==> k < |chunks| && chunks[k].None?)
  {
    yielded := [];
    var emptyCount := 0;
    var i := 0;
    while i < |chunks|
      invariant 0 <= i <= |chunks|
      invariant 0 <= emptyCount <= i
      invariant forall k :: i - emptyCount <= k < i ==> chunks[k].None?
      invariant emptyCount < i ==> chunks[i - emptyCount - 1].Some?
      invariant emptyCount > 0 ==> emptyCount < limit
      invariant forall k :: 0 <= k < i ==> !StopsAt(chunks, limit, parse, k)
      invariant yielded == Payloads(chunks[..i])
    {
      var chunk := chunks[i];
      assert chunks[..i + 1][..i] == chunks[..i];
      if StopsAt(chunks, limit, parse, i) {
        FirstStopIs(chunks, limit, parse, i);
      }
      if chunk.None? {
        emptyCount := emptyCount + 1;
        if emptyCount >= limit {
          return yielded, TimedOut;
        }
      } else {
        match chunk.value
        case End => return yielded, Stopped;
        case Error(message) => return yielded, ErrorRaised(message);
        case NoData => return yielded, Stopped;
        case Reply(data) =>
          emptyCount := 0;
          if !parse(data) {
            return yielded, ParseFailed;
          }
          yielded := yielded + [data];
      }
      i := i + 1;
    }
    FirstStopIs(chunks, limit, parse, |chunks|);
    return yielded, Exhausted;
  }
}
