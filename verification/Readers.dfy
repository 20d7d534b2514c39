// The request reader and the filtered readers it hands out, as objects. Each method is what
// one thread does when no other comes between; MessageBus lets the steps interleave.
module Readers {
  import opened Text
  import MessageBus

  type Line = MessageBus.Line

  function RemoveFirst<T(==)>(s: seq<T>, x: T): (r: seq<T>)
    ensures x !in s ==> r == s
    ensures x in s ==> multiset(s) == multiset(r) + multiset{x}
  {
    if s == [] then []
    else
      assert s == [s[0]] + s[1..];
      if s[0] == x then s[1..] else [s[0]] + RemoveFirst(s[1..], x)
  }

  datatype Round = Got(line: Line) | Nothing | Ended | Blocked

  class FilterReader {
    const filter: Line -> Option<bool>
    const owner: RequestReader
    var queue: seq<Option<Line>>
    var closed: bool

    /** A filter that gives nothing is one that raises. */
    constructor (filter: Line -> Option<bool>, owner: RequestReader)
      ensures this.filter == filter && this.owner == owner
      ensures queue == [] && !closed
    {
      this.filter := filter;
      this.owner := owner;
      queue := [];
      closed := false;
    }

    method Write(data: Line)
      modifies this`queue
      ensures queue == if closed then old(queue) else old(queue) + [Some(data)]
    {
      if !closed {
        queue := queue + [Some(data)];
      }
    }

    /** The first close sets the flag, leaves the request reader's list and puts the
        sentinel; any other does nothing. */
    method Close()
      modifies this, owner`readers
      ensures closed
      ensures queue == if old(closed) then old(queue) else old(queue) + [None]
      ensures owner.readers == if old(closed) then old(owner.readers) else RemoveFirst(old(owner.readers), this)
    {
      if closed {
        return;
      }
      closed := true;
      owner.Forget(this);
      queue := queue + [None];
    }

    /** One round of `read`. Without a timeout an open reader with nothing to read blocks. */
    method Next(timed: bool) returns (r: Round)
      modifies this`queue
      ensures old(queue) != [] ==>
        queue == old(queue)[1..] && r == if old(queue)[0].Some? then Got(old(queue)[0].value) else Ended
      ensures old(queue) == [] ==> queue == [] && r == if closed then Ended else if timed then Nothing else Blocked
    {
      if closed && queue == [] {
        return Ended;
      }
      if queue == [] {
        return if timed then Nothing else Blocked;
      }
      var data := queue[0];
      queue := queue[1..];
      if data.None? {
        return Ended;
      }
      return Got(data.value);
    }
  }

  class RequestReader {
    var readers: seq<FilterReader>
    var closed: bool

    constructor ()
      ensures readers == [] && !closed && Valid()
    {
      readers := [];
      closed := false;
    }

    /** Every listed reader is listed once and belongs here. */
    ghost predicate Valid()
      reads this, readers
    {
      && (forall i, j :: 0 <= i < j < |readers| ==> readers[i] != readers[j])
      && (forall i :: 0 <= i < |readers| ==> readers[i].owner == this)
    }

    method Forget(reader: FilterReader)
      modifies this`readers
      ensures readers == RemoveFirst(old(readers), reader)
    {
      if reader in readers {
        readers := RemoveFirst(readers, reader);
      }
    }

    method Read(filter: Line -> Option<bool>) returns (reader: FilterReader)
      requires Valid()
      modifies this`readers
      ensures Valid() && fresh(reader) && reader.filter == filter && reader.owner == this
      ensures reader.queue == [] && !reader.closed
      ensures readers == old(readers) + [reader]
    {
      reader := new FilterReader(filter, this);
      readers := readers + [reader];
    }

    /** The line goes to the queue of every listed reader that is open and whose filter says
        yes, once, and to no other. */
    method ProcessLine(data: Line)
      requires Valid()
      modifies readers
      ensures Valid()
      ensures forall r <- readers :: r.closed == old(r.closed)
      ensures forall r <- readers ::
                r.queue == if !r.closed && r.filter(data) == Some(true) then old(r.queue) + [Some(data)] else old(r.queue)
    {
      var toProcess := readers;
      var matched: seq<FilterReader> := [];
      for i := 0 to |toProcess|
        invariant forall r :: r in matched <==> r in toProcess[..i] && r.filter(data) == Some(true)
        invariant forall k, l :: 0 <= k < l < |matched| ==> matched[k] != matched[l]
      {
        var reader := toProcess[i];
        if reader.filter(data) == Some(true) {
          matched := matched + [reader];
        }
      }
      for i := 0 to |matched|
        invariant forall r <- toProcess :: r.closed == old(r.closed)
        invariant forall r <- matched[..i] :: r.queue == if r.closed then old(r.queue) else old(r.queue) + [Some(data)]
        invariant forall r <- toProcess :: r !in matched[..i] ==> r.queue == old(r.queue)
      {
        assert matched[i] in matched;
        matched[i].Write(data);
      }
      assert matched[..|matched|] == matched;
      assert toProcess[..|toProcess|] == toProcess;
    }

    /** Closing empties the list and closes every reader that was on it, so that each of
        them has its sentinel. */
    method Close()
      requires Valid()
      modifies this, readers
      ensures closed && readers == []
      ensures forall r <- old(readers) :: r.closed
      ensures forall r <- old(readers) :: r.queue == if old(r.closed) then old(r.queue) else old(r.queue) + [None]
    {
      closed := true;
      var toClose := readers;
      readers := [];
      for i := 0 to |toClose|
        invariant readers == [] && closed
        invariant forall k :: 0 <= k < i ==> toClose[k].closed
        invariant forall k | 0 <= k < i ::
                    toClose[k].queue
                    == if old(toClose[k].closed) then old(toClose[k].queue) else old(toClose[k].queue) + [None]
        invariant forall k :: i <= k < |toClose| ==>
          toClose[k].closed == old(toClose[k].closed) && toClose[k].queue == old(toClose[k].queue)
      {
        toClose[i].Close();
      }
    }
  }
}
