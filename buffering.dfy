/** `_.Buffer`: pending payloads, handed to the delivery handler when more
    than `size` of them are pending, on demand, or when its cron fires. */
module Buffering {
  import opened Wrappers
  import opened JsValues
  import opened Scheduling

  /** One call of the delivery handler: the batch it was given and whether
      the request went out asynchronously. */
  datatype Delivery = Delivery(batch: seq<Value>, async: bool)

  /** The delivery handler with the transport behind it, as a sink that
      records each batch. `asyncDefault` is the transport's default mode
      (`_.httpAsyncDefault`), read when the request is made. */
  class Sink {
    var asyncDefault: bool
    var sent: seq<Delivery>

    constructor ()
      ensures asyncDefault && sent == []
    {
      asyncDefault := true;
      sent := [];
    }

    method Deliver(batch: seq<Value>)
      modifies this
      ensures asyncDefault == old(asyncDefault)
      ensures sent == old(sent) + [Delivery(batch, asyncDefault)]
    {
      sent := sent + [Delivery(batch, asyncDefault)];
    }
  }

  /** What `add` does to the pending payloads: the batch it flushes, if any,
      and what stays pending. */
  datatype AddResult = AddResult(flushed: Option<seq<Value>>, pending: seq<Value>)

  function Sent(flushed: Option<seq<Value>>): seq<Value> {
    if flushed.Some? then flushed.value else []
  }

  /** `add(es)` on `pending` with capacity `size`. */
  function AddEffect(size: int, pending: seq<Value>, es: seq<Value>): (r: AddResult)
    // nothing is lost and nothing is reordered
    ensures Sent(r.flushed) + r.pending == pending + es
    // a flush happens exactly when more than `size` payloads would be pending
    ensures r.flushed.Some? <==> |pending| + |es| > size && pending + es != []
    ensures r.flushed.Some? ==> r.pending == []
    // the buffer never holds more than `size` payloads
    ensures r.pending == [] || |r.pending| <= size
  {
    var all := pending + es;
    if |all| > size && |all| > 0 then AddResult(Some(all), []) else AddResult(None, all)
  }

  /** With `size = 0` an empty buffer hands every non-empty `add` straight on. */
  lemma ImmediateMode(es: seq<Value>)
    requires es != []
    ensures AddEffect(0, [], es) == AddResult(Some(es), [])
  {
    assert [] + es == es;
  }

  /** The batch a flush of `pending` hands on. */
  function FlushOf(pending: seq<Value>): Option<seq<Value>> {
    if pending == [] then None else Some(pending)
  }

  /** The deliveries a flush of `flushed` adds in mode `async`. */
  function Batches(flushed: Option<seq<Value>>, async: bool): seq<Delivery> {
    if flushed.Some? then [Delivery(flushed.value, async)] else []
  }

  /** An `add` followed by a `flush` hands everything on in exactly one batch,
      whether or not the `add` itself flushed. */
  lemma AddThenFlush(size: int, pending: seq<Value>, es: seq<Value>, async: bool)
    requires pending + es != []
    ensures var r := AddEffect(size, pending, es);
      Batches(r.flushed, async) + Batches(FlushOf(r.pending), async) == [Delivery(pending + es, async)]
  {
    var r := AddEffect(size, pending, es);
    if r.flushed.Some? {
      assert r.flushed.value == pending + es by {
        assert Sent(r.flushed) + [] == pending + es;
      }
    } else {
      assert r.pending == pending + es;
    }
  }

  class Buffer {
    const size: int
    /** The delivery handler; null when it is undefined. */
    const sink: Sink?
    /** The cron, present only when `size > 0` and a flush interval is set. */
    const cron: Cron?
    var elements: seq<Value>

    /** The buffer holds at most `size` payloads. */
    ghost predicate Valid()
      reads this
    {
      elements == [] || |elements| <= size
    }

    /** `new _.Buffer(size, onFullHandler, bufferFlushSeconds)` at time `now`;
        `bufferFlushSeconds` counts as set when it is truthy. */
    constructor (size: int, sink: Sink?, bufferFlushSeconds: Option<int>, now: int)
      ensures Valid() && elements == []
      ensures this.size == size && this.sink == sink
      ensures cron != null <==> size > 0 && bufferFlushSeconds.Some? && bufferFlushSeconds.value != 0
      ensures cron != null ==> fresh(cron) && cron.repeatSeconds == bufferFlushSeconds.value && cron.lastRun == now
    {
      this.size := size;
      this.sink := sink;
      elements := [];
      if size > 0 && bufferFlushSeconds.Some? && bufferFlushSeconds.value != 0 {
        cron := new Cron(bufferFlushSeconds.value, now);
      } else {
        cron := null;
      }
    }

    /** The handler received `flushed` (if any) in the transport's current
        mode, and the cron was delayed at `now` if something was flushed. */
    twostate predicate Handed(flushed: Option<seq<Value>>, now: int)
      reads this, sink, cron
    {
      && (sink != null ==>
            sink.asyncDefault == old(sink.asyncDefault) &&
            sink.sent == old(sink.sent) + Batches(flushed, old(sink.asyncDefault)))
      && (cron != null ==> cron.lastRun == if flushed.Some? then now else old(cron.lastRun))
    }

    /** `flush()` at time `now`. */
    method Flush(now: int)
      modifies this, sink, cron
      ensures Valid() && elements == []
      ensures Handed(FlushOf(old(elements)), now)
    {
      if |elements| > 0 {
        if sink != null {
          sink.Deliver(elements);
        }
        elements := [];
        if cron != null {
          cron.Delay(now);
        }
      }
    }

    /** `add(es)` at time `now`. */
    method Add(es: seq<Value>, now: int)
      requires Valid()
      modifies this, sink, cron
      ensures Valid()
      ensures elements == AddEffect(size, old(elements), es).pending
      ensures Handed(AddEffect(size, old(elements), es).flushed, now)
    {
      elements := elements + es;
      if |elements| > size {
        Flush(now);
      }
    }

    /** `clear()`: drops the pending payloads without handing them on. */
    method Clear()
      modifies this
      ensures Valid() && elements == []
    {
      elements := [];
    }

    /** One poll of the cron at time `now`: when it fires, the buffer is flushed. */
    method Poll(now: int) returns (fired: bool)
      requires Valid()
      modifies this, sink, cron
      ensures Valid()
      ensures fired <==> cron != null && Due(old(cron.lastRun), cron.repeatSeconds, now)
      ensures fired ==> elements == [] && cron.lastRun == now
      ensures fired && sink != null ==>
        sink.asyncDefault == old(sink.asyncDefault) &&
        sink.sent == old(sink.sent) + Batches(FlushOf(old(elements)), old(sink.asyncDefault))
      ensures !fired ==> unchanged(this) && (sink != null ==> unchanged(sink)) && (cron != null ==> cron.lastRun == old(cron.lastRun))
    {
      fired := false;
      if cron != null {
        fired := cron.Poll(now);
        if fired {
          Flush(now);
        }
      }
    }
  }
}
