/** `exports.EventSubmitter` (its `submitEvents`, `submitEvent`,
    `flushBuffer` and `clearBuffer`) and `_.createCloseHandler`. */
module Submission {
  import opened Wrappers
  import opened JsValues
  import opened Events
  import opened Caching
  import opened Throttling
  import opened Buffering

  /** The payloads a `submitEvents(events)` call adds to the buffer when it
      starts from the cache entries `m` and its events pass validation. */
  function Accepted(m: map<string, int>, events: seq<Event>, stamp: string): seq<Value>
    requires ValidateEvents(Filter(m, events).kept).Pass?
  {
    Payloads(StampAll(Filter(m, events).kept, stamp))
  }

  class EventSubmitter {
    const cache: TemporaryCache
    const buffer: Buffer
    /** The delivery handler the buffer was given: always defined here. */
    const sink: Sink

    ghost predicate Valid()
      reads this, buffer
    {
      buffer.Valid() && buffer.sink == sink
    }

    /** `new EventSubmitter(homeDocUrl, metaData, opts)` at time `now`, with
        `opts.bufferSize` (0 when unset) and `opts.bufferFlushSeconds`. */
    constructor (bufferSize: Option<int>, bufferFlushSeconds: Option<int>, now: int)
      ensures Valid()
      ensures fresh(cache) && fresh(buffer) && fresh(sink)
      ensures buffer.cron != null ==> fresh(buffer.cron)
      ensures buffer.cron != null ==> bufferFlushSeconds.Some? && buffer.cron.repeatSeconds == bufferFlushSeconds.value && buffer.cron.lastRun == now
      ensures cache.entries == map[] && buffer.elements == []
      ensures buffer.size == if bufferSize.Some? then bufferSize.value else 0
      ensures buffer.cron != null <==> buffer.size > 0 && bufferFlushSeconds.Some? && bufferFlushSeconds.value != 0
      ensures sink.asyncDefault && sink.sent == []
    {
      var size := if bufferSize.Some? then bufferSize.value else 0;
      var s := new Sink();
      sink := s;
      buffer := new Buffer(size, s, bufferFlushSeconds, now);
      cache := new TemporaryCache();
    }

    /** `submitEvents(events)` at time `now`, the clock reading as `stamp`:
        throttle, then validate, then add the timestamp, then buffer. A
        validation failure leaves the buffer and the delivered batches alone,
        but the keys the throttle cached stay cached. */
    method SubmitEvents(events: seq<Event>, stamp: string, now: int) returns (r: Outcome<ValidationError>)
      requires Valid()
      modifies cache, buffer, sink, buffer.cron
      ensures Valid()
      ensures cache.entries == Filter(old(cache.entries), events).cache
      ensures r == ValidateEvents(Filter(old(cache.entries), events).kept)
      ensures r.Fail? ==> unchanged(buffer, sink) && (buffer.cron != null ==> unchanged(buffer.cron))
      ensures r.Pass? ==>
        var added := Accepted(old(cache.entries), events, stamp);
        && buffer.elements == AddEffect(buffer.size, old(buffer.elements), added).pending
        && buffer.Handed(AddEffect(buffer.size, old(buffer.elements), added).flushed, now)
    {
      var kept := ThrottleFreeEvents(cache, events);
      r := ValidateEvents(kept);
      if r.Fail? {
        return;
      }
      var stamped := AddTimestamp(kept, stamp);
      buffer.Add(Payloads(stamped), now);
    }

    /** `submitEvent(event)`: `submitEvents([event])`. */
    method SubmitEvent(event: Event, stamp: string, now: int) returns (r: Outcome<ValidationError>)
      requires Valid()
      modifies cache, buffer, sink, buffer.cron
      ensures Valid()
      ensures cache.entries == Filter(old(cache.entries), [event]).cache
      ensures r == ValidateEvents(Filter(old(cache.entries), [event]).kept)
      ensures r.Fail? ==> unchanged(buffer, sink) && (buffer.cron != null ==> unchanged(buffer.cron))
      ensures r.Pass? ==>
        var added := Accepted(old(cache.entries), [event], stamp);
        && buffer.elements == AddEffect(buffer.size, old(buffer.elements), added).pending
        && buffer.Handed(AddEffect(buffer.size, old(buffer.elements), added).flushed, now)
    {
      r := SubmitEvents([event], stamp, now);
    }

    /** `flushBuffer()` at time `now`. */
    method FlushBuffer(now: int)
      requires Valid()
      modifies buffer, sink, buffer.cron
      ensures Valid() && buffer.elements == []
      ensures buffer.Handed(FlushOf(old(buffer.elements)), now)
    {
      buffer.Flush(now);
    }

    /** `clearBuffer()`. */
    method ClearBuffer()
      requires Valid()
      modifies buffer
      ensures Valid() && buffer.elements == []
    {
      buffer.Clear();
    }
  }

  /** The payload of the single event `_.browserCloseEvents` holds. */
  const CloseProps: Props := map[
    "event-type" := Str("client"),
    "event-context" := Str("window closed"),
    "tags" := Arr([Str("generated_by_seclib")])
  ]

  /** `_.browserCloseEvents`. */
  function BrowserCloseEvents(): seq<Event> {
    [Event(Obj(CloseProps), None)]
  }

  /** The close events are one unkeyed, valid client event that carries no timestamp yet. */
  lemma BrowserCloseEventsShape()
    ensures |BrowserCloseEvents()| == 1
    ensures var e := BrowserCloseEvents()[0];
      && e.duplication.None? && IsValidEvent(e)
      && e.payload.Obj? && IsUndefined(Get(e.payload.props, TimestampKey))
  {
  }

  /** The close event's payload as submitted, stamped at `stamp`. */
  function ClosePayload(stamp: string): Value {
    Obj(CloseProps[TimestampKey := Str(stamp)])
  }

  /** The close event passes the throttle and validation, and the buffer
      receives its payload with the timestamp added. */
  lemma CloseEventAccepted(m: map<string, int>, stamp: string)
    ensures Filter(m, BrowserCloseEvents()) == FilterResult(BrowserCloseEvents(), m)
    ensures ValidateEvents(BrowserCloseEvents()).Pass?
    ensures Accepted(m, BrowserCloseEvents(), stamp) == [ClosePayload(stamp)]
  {
    UnkeyedSurvives(m, [], BrowserCloseEvents()[0]);
    assert [] + [BrowserCloseEvents()[0]] == BrowserCloseEvents();
    assert IsValidEvent(BrowserCloseEvents()[0]);
    MergeAbsentKey(CloseProps, TimestampKey, Str(stamp));
  }

  /** The handler `_.createCloseHandler(submitter)` returns, with its `done` latch. */
  class CloseHandler {
    var done: bool
    const submitter: EventSubmitter

    constructor (submitter: EventSubmitter)
      ensures !done && this.submitter == submitter
    {
      done := false;
      this.submitter := submitter;
    }

    /** One invocation at time `now`, the clock reading as `stamp`. The first
        switches the transport to synchronous requests, submits the close
        event and flushes the buffer, so that everything pending and the
        close event leave in one synchronous batch; every later one does nothing. */
    method Invoke(stamp: string, now: int)
      requires submitter.Valid()
      modifies this, submitter.cache, submitter.buffer, submitter.sink, submitter.buffer.cron
      ensures submitter.Valid() && done
      ensures old(done) ==>
        && unchanged(submitter.cache, submitter.buffer, submitter.sink)
        && (submitter.buffer.cron != null ==> unchanged(submitter.buffer.cron))
      ensures !old(done) ==>
        && !submitter.sink.asyncDefault
        && submitter.sink.sent ==
             old(submitter.sink.sent) + [Delivery(old(submitter.buffer.elements) + [ClosePayload(stamp)], false)]
        && submitter.buffer.elements == []
        && submitter.cache.entries == old(submitter.cache.entries)
        && (submitter.buffer.cron != null ==> submitter.buffer.cron.lastRun == now)
    {
      if !done {
        done := true;
        submitter.sink.asyncDefault := false;
        CloseEventAccepted(submitter.cache.entries, stamp);
        ghost var pending := submitter.buffer.elements;
        ghost var sent := submitter.sink.sent;
        var r := submitter.SubmitEvents(BrowserCloseEvents(), stamp, now);
        assert r.Pass?;
        ghost var added := AddEffect(submitter.buffer.size, pending, [ClosePayload(stamp)]);
        assert submitter.sink.sent == sent + Batches(added.flushed, false);
        submitter.FlushBuffer(now);
        AddThenFlush(submitter.buffer.size, pending, [ClosePayload(stamp)], false);
      }
    }
  }
}
