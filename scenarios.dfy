/** Client code showing what callers can conclude from the contracts alone. */
module Scenarios {
  import opened Wrappers
  import opened JsValues
  import opened Events
  import opened Caching
  import opened Throttling
  import opened Buffering
  import opened Submission

  /** A key put for three ticks is cached for two ticks and gone at the third. */
  method CacheWindow(k: string, other: string)
    requires k != other
  {
    var cache := new TemporaryCache();
    cache.Put(k, 3);
    cache.Put(other, 10);
    cache.Tick();
    cache.Tick();
    assert cache.Contains(k) && cache.TicksFor(k) == Some(1);
    cache.Tick();
    assert !cache.Contains(k) && cache.TicksFor(other) == Some(7);
  }

  /** A buffer of size 2: two single adds stay pending, the third flushes all three in order. */
  method BufferOfTwo(a: Value, b: Value, c: Value) {
    var sink := new Sink();
    var buffer := new Buffer(2, sink, None, 0);
    buffer.Add([a], 0);
    buffer.Add([b], 0);
    assert buffer.elements == [a, b] && sink.sent == [];
    buffer.Add([c], 0);
    assert [a, b] + [c] == [a, b, c];
    assert AddEffect(2, [a, b], [c]).flushed == Some([a, b, c]);
    assert buffer.elements == [] && sink.sent == [Delivery([a, b, c], true)];
  }

  /** A buffer of size 0 hands every add straight on. */
  method ImmediateDelivery(a: Value, b: Value) {
    var sink := new Sink();
    var buffer := new Buffer(0, sink, Some(30), 0);
    assert buffer.cron == null;
    buffer.Add([a, b], 0);
    assert [] + [a, b] == [a, b];
    assert AddEffect(0, [], [a, b]).flushed == Some([a, b]);
    assert buffer.elements == [] && sink.sent == [Delivery([a, b], true)];
    buffer.Add([], 0);
    assert sink.sent == [Delivery([a, b], true)];
  }

  /** A buffered cron flushes only once its interval has elapsed. */
  method InactivityFlush(a: Value) {
    var sink := new Sink();
    var buffer := new Buffer(10, sink, Some(30), 0);
    buffer.Add([a], 0);
    assert [] + [a] == [a];
    assert buffer.elements == [a];
    var fired := buffer.Poll(29_999);
    assert !fired && sink.sent == [];
    fired := buffer.Poll(30_000);
    assert fired && sink.sent == [Delivery([a], true)] && buffer.elements == [];
  }

  /** A submitter with a buffer size and a flush interval flushes once the
      interval has passed with no flush. */
  method SubmitterInactivityFlush() {
    var submitter := new EventSubmitter(Some(5), Some(10), 0);
    var fired := submitter.buffer.Poll(9_999);
    assert !fired;
    fired := submitter.buffer.Poll(10_000);
    assert fired && submitter.buffer.cron.lastRun == 10_000;
  }

  /** Validation rejects a payload without event-type and an unknown event-type,
      and accepts a client event, which is buffered with its timestamp. */
  method Validation(stamp: string) {
    var submitter := new EventSubmitter(Some(5), None, 0);
    var noType := Event(Obj(map[]), None);
    var r := submitter.SubmitEvents([noType], stamp, 0);
    assert Filter(map[], [noType]).kept == [noType] by {
      UnkeyedSurvives(map[], [], noType);
      assert [] + [noType] == [noType];
    }
    assert r == Fail(MissingEventType);
    assert submitter.buffer.elements == [];

    var bogus := Event(Obj(map["event-type" := Str("bogus")]), None);
    r := submitter.SubmitEvents([bogus], stamp, 0);
    assert Filter(map[], [bogus]).kept == [bogus] by {
      UnkeyedSurvives(map[], [], bogus);
      assert [] + [bogus] == [bogus];
    }
    assert r == Fail(InvalidEventType);
    assert submitter.buffer.elements == [];

    var client := Event(Obj(map["event-type" := Str("client")]), None);
    r := submitter.SubmitEvents([client], stamp, 0);
    assert Filter(map[], [client]).kept == [client] by {
      UnkeyedSurvives(map[], [], client);
      assert [] + [client] == [client];
    }
    assert r == Pass;
    assert |submitter.buffer.elements| == 1;
    assert submitter.buffer.elements[0].props[TimestampKey] == Str(stamp);
  }

  /** Closing twice sends the close event once, in one synchronous batch. */
  method CloseTwice(stamp: string) {
    var submitter := new EventSubmitter(Some(5), Some(10), 0);
    var onClose := new CloseHandler(submitter);
    onClose.Invoke(stamp, 100);
    assert [] + [ClosePayload(stamp)] == [ClosePayload(stamp)];
    assert submitter.sink.sent == [Delivery([ClosePayload(stamp)], false)];
    onClose.Invoke(stamp, 200);
    assert submitter.sink.sent == [Delivery([ClosePayload(stamp)], false)];
  }
}
