# SEC event pipeline: a verified Dafny model

This project models the event path of the SEC JavaScript library
(`js/sec-1.0.js`). Events pass through these stages in order:

1. The throttle filter drops an event whose `duplication.key` is still in
   the temporary cache. The cache maps keys to remaining ticks, and a
   one-second clock counts them down.
2. Validation checks the payload and its `event-type`.
3. The enricher adds the `x-vf-trace-timestamp` property without
   overwriting an existing one.
4. The buffer holds payloads and hands them to the delivery handler in
   three cases: when more than `size` are pending, on `flushBuffer`, and
   when its cron sees a flush interval with no flush.
5. The browser-close handler runs only once. It switches the transport to
   synchronous requests, submits the close event, and flushes the buffer.

Modules, one file each:

- `Wrappers` (wrappers.dfy): `Option` and `Outcome`.
- `JsValues` (js_values.dfy): JavaScript values and `_.isUndefined`,
  `_.contains`, `_.setDefault`, `_.merge`. The in-place helpers are the
  `JsObject` class, specified by the functions `SetDefaulted` and `Merged`.
- `Caching` (caching.dfy): the `TemporaryCache` class. The functions
  `Advanced` and `AdvanceAll` describe what one clock advance and a series
  of advances do.
- `Events` (events.dfy): events, `_.validateEvent(s)`, `_.payloads` and
  `_.addTimestamp`.
- `Throttling` (throttling.dfy): the function `Filter` runs the throttle
  over a batch one event at a time. The method `ThrottleFreeEvents` is the
  source's loop, proved equal to it.
- `Scheduling` (scheduling.dfy): the `Cron` class, driven by an explicit
  clock in milliseconds.
- `Buffering` (buffering.dfy): `Buffer`, plus the delivery handler as a
  `Sink` that records each batch and the transport mode it was sent in.
  The function `AddEffect` gives the result of `add`.
- `Submission` (submission.dfy): `EventSubmitter` and `CloseHandler`.
- `Scenarios` (scenarios.dfy): client methods that check, from the
  contracts alone, the behaviours the library documents. Examples: a
  buffer of size 2, immediate delivery with size 0, the three validation
  cases, closing twice.

How the environment is modelled:

- Clocks are arguments. The cache's `setInterval` tick is
  `TemporaryCache.Tick`. The cron's 500 ms poll is `Buffer.Poll(now)`.
  `new Date()` is the argument `now`, in milliseconds.
- The ISO timestamp is an opaque string `stamp`.
- The global `_.httpAsyncDefault` is the field `Sink.asyncDefault`. Each
  delivery records the mode that was in effect when it was made.

On these edge cases the model follows the code:

- `put(k, n)` with `n <= 0` leaves `k` cached until the next clock advance.
- `add([])` on a buffer of size 0 does not flush.
- Whether a flush calls the handler depends on the handler being defined.
  A null `Sink` stands for an undefined handler.

## Model

| member | source | states |
|---|---|---|
| JsValues.UndefinedTypeOf | js/sec-1.0.js:36-38 | a value is undefined exactly when its `typeof` is 'undefined' |
| JsValues.IndexOf | js/sec-1.0.js:32-34 | the index is -1 or holds the element, and no earlier index holds it |
| JsValues.Contains | js/sec-1.0.js:32-34 | `_.contains` holds exactly when the element occurs in the array |
| JsValues.SetDefaulted | js/sec-1.0.js:40-44 | the key is set to the default only when its value is undefined; other keys keep their values |
| JsValues.Merged | js/sec-1.0.js:55-59 | the merge never overwrites a defined property, fills undefined or missing ones from the defaults, and keeps all other properties |
| JsValues.MergeIdempotent | js/sec-1.0.js:55-59 | merging the same defaults a second time changes nothing |
| JsValues.MergeAbsentKey | js/sec-1.0.js:40-59 | merging one default into an object lacking the key just adds that key |
| JsValues.MergedStep | js/sec-1.0.js:46-59 | each `setDefault` of the merge loop takes one more default key into the merge |
| JsValues.JsObject.SetDefault | js/sec-1.0.js:40-44 | the object's properties become `SetDefaulted` of the old ones |
| JsValues.JsObject.Merge | js/sec-1.0.js:46-59 | the loop over the defaults' own keys leaves the object equal to `Merged` of its old properties |
| Caching.TemporaryCache.constructor | js/sec-1.0.js:254-255 | a new cache has no entries |
| Caching.TemporaryCache.Contains | js/sec-1.0.js:256-258 | the corrected `contains`: a key is cached exactly when it has an entry; it agrees with the source's test except on names inherited from `Object.prototype`, where the source always answers true |
| Caching.TemporaryCache.TicksFor | js/sec-1.0.js:280-282 | `_ticksFor` is undefined exactly when the key is not cached, and otherwise its remaining ticks |
| Caching.TemporaryCache.Put | js/sec-1.0.js:259-262 | after `put(k, n)` the key is cached with exactly `n` ticks, replacing old ticks; other keys are unchanged |
| Caching.TemporaryCache.AdvanceTime | js/sec-1.0.js:263-272 | a key survives only if its ticks minus `t` stay positive, survivors hold exactly old ticks minus `t`, and no key appears |
| Caching.TemporaryCache.Tick | js/sec-1.0.js:273-279 | one clock beat advances the cache by one tick |
| Caching.AdvanceAllSnoc | js/sec-1.0.js:263-272 | successive advances compose: one more `advanceTime` extends the series of advances |
| Caching.AdvanceAllSurvivor | js/sec-1.0.js:263-272 | a key present after several advances was present before and has lost exactly their total, staying positive |
| Caching.ExpiresAfterWindow | js/sec-1.0.js:259-272 | a key put with `n > 0` ticks is gone once at least `n` ticks have been advanced in total |
| Caching.CachedWhileWindowOpen | js/sec-1.0.js:263-279 | with non-negative advances, a key put with `n > 0` ticks is cached if and only if fewer than `n` ticks have passed |
| Caching.AdvanceAllKeys | js/sec-1.0.js:263-272 | advancing never brings back an absent key |
| Caching.ContainsAsWritten | js/sec-1.0.js:255-258 | as written, `contains` is true for every name inherited from `Object.prototype`, whatever the cache holds |
| Events.ValidateEvent | js/sec-1.0.js:201-211 | passes exactly for an object payload whose event-type is client, internal or request; otherwise fails with missing payload (not an object or array), missing event-type, or invalid event-type |
| Events.ValidateEvents | js/sec-1.0.js:213-215 | passes exactly when every event does; otherwise fails with the error of the first failing event; passing events all have object payloads |
| Events.Payloads | js/sec-1.0.js:195-199 | one payload per event, in order |
| Events.Stamp | js/sec-1.0.js:217-222 | stamping keeps every property and the duplication descriptor, and sets the trace timestamp only where it was undefined |
| Events.StampAll | js/sec-1.0.js:217-222 | every event of the batch is stamped with the same instant, in order |
| Events.AddTimestamp | js/sec-1.0.js:217-222 | the loop over the payloads yields exactly `StampAll` of the batch |
| Throttling.Filter | js/sec-1.0.js:236-251 | the reference throttle, one event after the other: it keeps at most the input's events and never drops a cached key |
| Throttling.FilterCache | js/sec-1.0.js:234-252 | after filtering, the cache holds its old keys with their old ticks plus the key of every keyed event of the batch |
| Throttling.FilterSnoc | js/sec-1.0.js:238-249 | an event survives exactly when it has no duplication or its key was neither cached nor carried by an earlier event of the batch; a surviving key is put with its window |
| Throttling.UnkeyedSurvives | js/sec-1.0.js:246-248 | events without a duplication descriptor always survive |
| Throttling.CachedDropped | js/sec-1.0.js:224-245 | an event whose key is cached is dropped with no effect on the cache |
| Throttling.RepeatDropped | js/sec-1.0.js:240-245 | a later event of the same batch with the key of an earlier one is dropped |
| Throttling.SurvivorCached | js/sec-1.0.js:241-245 | a surviving keyed event leaves its key cached with its own repeat window |
| Throttling.FilterSubsequence | js/sec-1.0.js:236-251 | the survivors are an order-preserving subsequence of the input |
| Throttling.SurvivorKeysFresh | js/sec-1.0.js:234-252 | no survivor carries a key cached before the call, and no two survivors share a key |
| Throttling.SurvivorKeysIn | js/sec-1.0.js:234-252 | survivors' keys are keys the batch carries |
| Throttling.WindowReopens | js/sec-1.0.js:224-279 | with a clock that never runs backwards, a cached key's event survives again exactly once its window has fully elapsed |
| Throttling.AdmitsAsWritten | js/sec-1.0.js:224-232 | the `_.throttle` gate as written admits no more than the intended gate, and differs from it only on inherited names |
| Throttling.InheritedKeyDroppedAsWritten | js/sec-1.0.js:224-258 | as written, an event keyed "toString" is dropped on an empty cache and after any clock advances |
| Throttling.EmptyCacheAdmits | js/sec-1.0.js:234-252 | on an empty cache the first event survives whatever its key, and only its key is cached |
| Throttling.ThrottleFreeEvents | js/sec-1.0.js:224-252 | the filter loop returns exactly the survivors of `Filter` and leaves the cache as `Filter` says |
| Scheduling.Cron.constructor | js/sec-1.0.js:285-286 | the last run starts at construction time |
| Scheduling.Cron.Delay | js/sec-1.0.js:287-289 | `delay()` sets the last run to now without running the task |
| Scheduling.Cron.Poll | js/sec-1.0.js:290-297 | a poll runs the task and sets the last run to now if and only if `now - lastRun >= repeatSeconds * 1000` |
| Scheduling.Cron.PollAll | js/sec-1.0.js:290-297 | successive polls with no delay run the task at exactly the times `FireTimes` gives, and leave the last run at the last of them |
| Scheduling.FireTimes | js/sec-1.0.js:290-297 | the task runs at most once per poll |
| Scheduling.FiresSpaced | js/sec-1.0.js:290-297 | the task never runs before the interval has elapsed since its last run |
| Scheduling.FiresWithinOnePeriod | js/sec-1.0.js:290-297 | with polls at most one period apart, the task runs less than one period after it became due |
| Buffering.Sink.constructor | js/sec-1.0.js:81 | the transport starts in asynchronous mode, with nothing sent |
| Buffering.Sink.Deliver | js/sec-1.0.js:83-84 | each delivery records the batch and the transport's default mode at that moment |
| Buffering.AddEffect | js/sec-1.0.js:314-321 | `add` loses and reorders nothing, flushes exactly when more than `size` would be pending, leaves the buffer empty after a flush, and never leaves more than `size` pending |
| Buffering.ImmediateMode | js/sec-1.0.js:314-321 | with size 0 every non-empty add sends exactly the added payloads at once |
| Buffering.AddThenFlush | js/sec-1.0.js:303-321 | an `add` followed by a `flush` hands the old pending payloads and the added ones on in exactly one batch, whether or not the `add` flushed |
| Buffering.Buffer.constructor | js/sec-1.0.js:300-331 | an empty buffer, with a cron exactly when `size > 0` and a non-zero flush interval is set |
| Buffering.Buffer.Flush | js/sec-1.0.js:303-313 | a non-empty buffer is handed to the handler in one call, in insertion order, then emptied and the cron delayed; an empty buffer is left alone |
| Buffering.Buffer.Add | js/sec-1.0.js:314-321 | the buffer and the handler's batches change as `AddEffect` says, and the cron is delayed exactly when a flush happened |
| Buffering.Buffer.Clear | js/sec-1.0.js:322-325 | clearing empties the buffer and hands nothing on |
| Buffering.Buffer.Poll | js/sec-1.0.js:290-297 | the cron fires exactly when due, and then the buffer is flushed and the last run set to now |
| Submission.EventSubmitter.constructor | js/sec-1.0.js:387-396 | a new submitter has an empty cache and buffer, buffer size 0 unless configured, and a cron only as the buffer rules say, holding the flush interval and starting its window at construction time |
| Submission.EventSubmitter.SubmitEvents | js/sec-1.0.js:398-403 | throttle, then validate, then stamp, then add. On a validation error the buffer and the deliveries are untouched and the throttle's new keys stay cached |
| Submission.EventSubmitter.SubmitEvent | js/sec-1.0.js:404-406 | the same as `SubmitEvents` on the one event |
| Submission.EventSubmitter.FlushBuffer | js/sec-1.0.js:410-412 | delegates to the buffer's flush |
| Submission.EventSubmitter.ClearBuffer | js/sec-1.0.js:413-415 | delegates to the buffer's clear |
| Submission.BrowserCloseEventsShape | js/sec-1.0.js:333-339 | one unkeyed, valid client event whose payload has no timestamp yet |
| Submission.CloseEventAccepted | js/sec-1.0.js:333-339 | the close event passes throttle and validation and is buffered with its timestamp |
| Submission.CloseHandler.constructor | js/sec-1.0.js:341-342 | a new handler has not run |
| Submission.CloseHandler.Invoke | js/sec-1.0.js:343-350 | the first call switches to synchronous mode and sends everything pending plus the close event in one synchronous batch; every later call changes nothing |

## Findings

| source | as written | input that shows it | evidently intended | confidence | as-written member | corrected member |
|---|---|---|---|---|---|---|
| js/sec-1.0.js:255-258 | `contains` reads `cache[item]` on an object literal, so names inherited from `Object.prototype` are never undefined | an event with `duplication.key` "toString" on an empty cache: it is dropped, and so is every later one with that key | only keys put and not yet expired are cached, so the first such event survives | not executed; follows from JavaScript property lookup | Throttling.InheritedKeyDroppedAsWritten | Throttling.EmptyCacheAdmits |

The as-written test is `Caching.ContainsAsWritten`. The rest of the model
tests own keys only: `TemporaryCache.Contains` and `Filter` use `key in entries`.

## Left out

- `_.http`, `_.setHeaders`, `_.getHomeDoc`, `_.getClientSettings` and `getSettings`: synchronous HTTP I/O, including the status check `200 <= status < 400`.
- `_.submitLink`, `_.serializer`, `_.bytesFrom` and gzip compression: serialization and foreign calls. The handler is the `Sink`. A missing submit link, which makes the handler a no-op, and the serializer's error for non-JSON types are not modelled.
- `_.submitEventsLink` and `_.clientSettingsLink`: lookups in the remote home document.
- `_.handleBrowserClose`: registering listeners for `beforeunload` and `unload`. A `CloseHandler` is built and invoked directly.
- `_.debug`, console logging and `_render`: output only.
- `setInterval` in `startClock` and `_.Cron`, and `new Date()` / `toISOString`: timers and the wall clock, replaced by explicit `Tick` and `Poll(now)` calls and an opaque `stamp` string.
- `_.throttle`: this closure combinator is inlined into `ThrottleFreeEvents` as the `Contains` test that guards pushing the event and putting its key. Its `ignored` result is unused by its only caller.
- `_.enricherWith`, `_.forKeyValue`, `_.addElements` and `_.removeAllElements`: small helpers, inlined as `Merged`/`Stamp`, the loop of `JsObject.Merge`, and sequence reassignment.
- Payload objects are values. The in-place update of the caller's payload objects is not modelled, and neither is aliasing between events that share one payload object. The handler is given the pending sequence itself; the model hands it a copy, which agrees with the source because serialization happens during the handler call, before the array is truncated.
- JavaScript numbers are integers. NaN, fractions and an undefined `repeatSeconds` are not modelled: `put(k, undefined)` would leave `k` reading as not cached.
- A `duplication` value that is truthy but not a descriptor object is not modelled.
- `obj[key]` in `setDefault` and `validateEvent` reads own properties only. The prototype chain is captured only for the cache finding above.
- Strict equality `===` on objects is reference identity; the model compares values. The array `_.contains` searches holds only strings, and no object or array is `===` to a string, so the two comparisons agree there.
- `FireTimes` describes a series of polls with no `delay()` between them; `Cron.PollAll` ties it to successive `Poll` calls, and a flush that delays the cron is described by `Buffer.Handed` instead.
- `_.httpAsyncDefault` is one global shared by every submitter. The model gives each `Sink` its own flag.
- `AddTimestamp` requires object payloads, as its only caller guarantees after validation. A primitive payload would throw in strict mode.
