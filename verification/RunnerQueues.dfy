// The runner's own state as an object: the stop flag, the table of queues, and the pipe to
// the plugin. Each method is one critical section of the source; PluginRunner lets them
// interleave, and the contracts say that its steps do to the shared state what these do.
module RunnerQueues {
  import opened Text
  import opened PluginRunner

  class Runner {
    var stop: bool
    var q: map<nat, seq<Entry>>

    constructor ()
      ensures !stop && q == map[]
    {
      stop := false;
      q := map[];
    }

    /** What PluginRunner's shared state says of these fields. */
    ghost predicate Shows(sh: Shared)
      reads this
    {
      && stop == sh.stop
      && (forall id :: id in q <==> IsLive(sh.mail, id))
      && (forall id :: id in q ==> q[id] == sh.mail[id].queue)
    }

    /** Registration, inside `q_lock`. */
    method Register(id: nat) returns (ok: bool)
      requires id !in q
      modifies this`q
      ensures ok <==> !stop
      ensures q == if ok then old(q)[id := []] else old(q)
      ensures forall sh: Shared, a: Activity, input: Input | old(Shows(sh)) ::
                Shows(InvokeStep(sh, a, InvokeHoldQ(id), input).value.0)
    {
      if stop {
        return false;
      }
      q := q[id := []];
      return true;
    }

    /** The locked part of `_publish_message`. */
    method Publish(message: Message)
      modifies this`q
      ensures message.invokeId !in old(q) ==> q == old(q)
      ensures message.invokeId in old(q) && message.kind == PluginInvokeEnd ==>
                q == old(q)[message.invokeId := old(q)[message.invokeId] + [EndMark]]
      ensures message.invokeId in old(q) && message.kind != PluginInvokeEnd ==>
                q == old(q)[message.invokeId := old(q)[message.invokeId] + [Put(message)]]
      ensures forall sh: Shared, a: Activity, input: Input | old(Shows(sh)) ::
                Shows(ReaderStep(sh, a, PublishHoldQ(message), input).value.0)
    {
      if message.invokeId !in q {
        return;
      }
      if message.kind == PluginInvokeEnd {
        q := q[message.invokeId := q[message.invokeId] + [EndMark]];
      } else {
        q := q[message.invokeId := q[message.invokeId] + [Put(message)]];
      }
    }

    /** The `finally` of `invoke`. */
    method Leave(id: nat)
      modifies this`q
      ensures q == old(q) - {id}
      ensures forall sh: Shared, a: Activity, input: Input | old(Shows(sh)) && id in sh.mail ::
                Shows(InvokeStep(sh, a, LeaveHoldQ(id), input).value.0)
    {
      q := q - {id};
    }

    /** The locked part of `_close`: the first call alone puts an exception into every
        queue, one each. */
    method CloseLocked() returns (first: bool)
      modifies this
      ensures stop && (first <==> !old(stop))
      ensures q.Keys == old(q.Keys)
      ensures forall id :: id in q ==> q[id] == if first then old(q)[id] + [Raise] else old(q)[id]
    {
      first := !stop;
      stop := true;
      if first {
        var rest := q.Keys;
        while rest != {}
          invariant stop && rest <= q.Keys == old(q.Keys)
          invariant forall id :: id in q ==> q[id] == if id in rest then old(q)[id] else old(q)[id] + [Raise]
          decreases |rest|
        {
          var id :| id in rest;
          q := q[id := q[id] + [Raise]];
          rest := rest - {id};
        }
      }
    }
  }

  // ---- Writing to the plugin.

  class Pipe {
    var written: seq<nat>

    /** The kernel takes some of what it is offered. */
    method Write(data: seq<nat>) returns (n: nat)
      requires data != []
      modifies this
      ensures 1 <= n <= |data| && written == old(written) + data[..n]
    {
      n :| 1 <= n <= |data|;
      written := written + data[..n];
    }
  }

  const CHUNK := 4096

  /** However little the kernel takes at a time, the whole request goes out, once and in
      order. */
  method WriteToPipe(pipe: Pipe, data: seq<nat>)
    modifies pipe
    ensures pipe.written == old(pipe.written) + data
  {
    var remaining := data;
    ghost var done: nat := 0;
    while remaining != []
      invariant done <= |data| && remaining == data[done..]
      invariant pipe.written == old(pipe.written) + data[..done]
      decreases |remaining|
    {
      var offered := if |remaining| <= CHUNK then remaining else remaining[..CHUNK];
      var n := pipe.Write(offered);
      assert data[..done] + offered[..n] == data[..done + n];
      remaining := remaining[n..];
      done := done + n;
    }
  }
}
