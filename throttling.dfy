/** `_.throttleFreeEventsFilter` (built on `_.throttle`): drops every event
    whose duplication key is still cached, and caches the key of every
    keyed event it lets through. */
module Throttling {
  import opened Wrappers
  import opened JsValues
  import opened Events
  import opened Caching

  /** What filtering a batch yields: the surviving events and the cache after. */
  datatype FilterResult = FilterResult(kept: seq<Event>, cache: map<string, int>)

  /** The filter run over `events` from the cache entries `m`, one event
      after the other. */
  function Filter(m: map<string, int>, events: seq<Event>): (r: FilterResult)
    ensures |r.kept| <= |events|
    ensures m.Keys <= r.cache.Keys
    decreases |events|
  {
    if events == [] then FilterResult([], m)
    else
      var prev := Filter(m, events[..|events| - 1]);
      var e := events[|events| - 1];
      match e.duplication
      case None => FilterResult(prev.kept + [e], prev.cache)
      case Some(d) =>
        if d.key in prev.cache then prev
        else FilterResult(prev.kept + [e], prev.cache[d.key := d.repeatSeconds])
  }

  /** The duplication keys carried by `events`. */
  function KeysOf(events: seq<Event>): set<string> {
    set i | 0 <= i < |events| && events[i].duplication.Some? :: events[i].duplication.value.key
  }

  /** An event survives after `prefix` when it has no duplication descriptor,
      or its key was neither cached beforehand nor carried by an earlier event. */
  predicate Admitted(m: map<string, int>, prefix: seq<Event>, e: Event) {
    e.duplication.None? || (e.duplication.value.key !in m && e.duplication.value.key !in KeysOf(prefix))
  }

  lemma KeysOfSnoc(s: seq<Event>, e: Event)
    ensures KeysOf(s + [e]) == KeysOf(s) + (if e.duplication.Some? then {e.duplication.value.key} else {})
  {
    var s' := s + [e];
    forall k | k in KeysOf(s') ensures k in KeysOf(s) + (if e.duplication.Some? then {e.duplication.value.key} else {}) {
      var i :| 0 <= i < |s'| && s'[i].duplication.Some? && s'[i].duplication.value.key == k;
      if i < |s| { assert s[i] == s'[i]; }
    }
    forall k | k in KeysOf(s) ensures k in KeysOf(s') {
      var i :| 0 <= i < |s| && s[i].duplication.Some? && s[i].duplication.value.key == k;
      assert s'[i] == s[i];
    }
    if e.duplication.Some? {
      assert s'[|s|] == e;
    }
  }

  /** The cache after filtering holds the old keys with their old counts,
      plus the key of every keyed event of the batch. */
  lemma {:induction false} FilterCache(m: map<string, int>, events: seq<Event>)
    ensures Filter(m, events).cache.Keys == m.Keys + KeysOf(events)
    ensures forall k :: k in m ==> Filter(m, events).cache[k] == m[k]
    decreases |events|
  {
    if events != [] {
      var s := events[..|events| - 1];
      var e := events[|events| - 1];
      assert events == s + [e];
      FilterCache(m, s);
      KeysOfSnoc(s, e);
    }
  }

  /** Filtering one event more appends it exactly when it is admitted. */
  lemma FilterSnoc(m: map<string, int>, s: seq<Event>, e: Event)
    ensures Filter(m, s + [e]).kept == Filter(m, s).kept + (if Admitted(m, s, e) then [e] else [])
    ensures Filter(m, s + [e]).cache ==
      if Admitted(m, s, e) && e.duplication.Some?
      then Filter(m, s).cache[e.duplication.value.key := e.duplication.value.repeatSeconds]
      else Filter(m, s).cache
  {
    assert (s + [e])[..|s + [e]| - 1] == s;
    FilterCache(m, s);
  }

  /** Events without a duplication descriptor always survive. */
  lemma UnkeyedSurvives(m: map<string, int>, s: seq<Event>, e: Event)
    requires e.duplication.None?
    ensures Filter(m, s + [e]).kept == Filter(m, s).kept + [e]
  {
    FilterSnoc(m, s, e);
  }

  /** An event whose key is cached when it comes is dropped. */
  lemma CachedDropped(m: map<string, int>, s: seq<Event>, e: Event)
    requires e.duplication.Some? && e.duplication.value.key in m
    ensures Filter(m, s + [e]) == Filter(m, s)
  {
    FilterSnoc(m, s, e);
  }

  /** A second event with the key of an earlier one in the same batch is dropped. */
  lemma RepeatDropped(m: map<string, int>, s: seq<Event>, first: Event, t: seq<Event>, e: Event)
    requires first.duplication.Some? && e.duplication.Some?
    requires first.duplication.value.key == e.duplication.value.key
    ensures Filter(m, s + [first] + t + [e]) == Filter(m, s + [first] + t)
  {
    var p := s + [first] + t;
    assert p[|s|] == first;
    assert e.duplication.value.key in KeysOf(p);
    FilterSnoc(m, p, e);
  }

  /** A surviving keyed event leaves its key cached with its own window. */
  lemma SurvivorCached(m: map<string, int>, s: seq<Event>, e: Event)
    requires e.duplication.Some? && Admitted(m, s, e)
    ensures e.duplication.value.key in Filter(m, s + [e]).cache
    ensures Filter(m, s + [e]).cache[e.duplication.value.key] == e.duplication.value.repeatSeconds
  {
    FilterSnoc(m, s, e);
  }

  /** `b` is `a` with some elements taken out, the rest in their order. */
  predicate IsSubsequence<T(==)>(a: seq<T>, b: seq<T>)
    decreases |b|
  {
    a == [] ||
    (b != [] &&
     ((a[|a| - 1] == b[|b| - 1] && IsSubsequence(a[..|a| - 1], b[..|b| - 1])) ||
      IsSubsequence(a, b[..|b| - 1])))
  }

  /** The survivors are an order-preserving subsequence of the batch. */
  lemma {:induction false} FilterSubsequence(m: map<string, int>, events: seq<Event>)
    ensures IsSubsequence(Filter(m, events).kept, events)
    decreases |events|
  {
    if events != [] {
      var s := events[..|events| - 1];
      var e := events[|events| - 1];
      assert events == s + [e];
      FilterSubsequence(m, s);
      FilterSnoc(m, s, e);
      var k := Filter(m, s).kept;
      if Admitted(m, s, e) {
        assert (k + [e])[..|k + [e]| - 1] == k;
      }
    }
  }

  /** No survivor carries a key that was cached before, and no two survivors
      carry the same key. */
  lemma {:induction false} SurvivorKeysFresh(m: map<string, int>, events: seq<Event>)
    ensures var kept := Filter(m, events).kept;
      forall i :: 0 <= i < |kept| && kept[i].duplication.Some? ==> kept[i].duplication.value.key !in m
    ensures var kept := Filter(m, events).kept;
      forall i, j ::
        (0 <= i < j < |kept| && kept[i].duplication.Some? && kept[j].duplication.Some?) ==>
        kept[i].duplication.value.key != kept[j].duplication.value.key
    decreases |events|
  {
    if events != [] {
      var s := events[..|events| - 1];
      var e := events[|events| - 1];
      assert events == s + [e];
      SurvivorKeysFresh(m, s);
      FilterSnoc(m, s, e);
      var k := Filter(m, s).kept;
      if Admitted(m, s, e) && e.duplication.Some? {
        SurvivorKeysIn(m, s);
      }
    }
  }

  /** The keys of the survivors are keys the batch carries. */
  lemma {:induction false} SurvivorKeysIn(m: map<string, int>, events: seq<Event>)
    ensures var kept := Filter(m, events).kept;
      forall i :: 0 <= i < |kept| && kept[i].duplication.Some? ==> kept[i].duplication.value.key in KeysOf(events)
    decreases |events|
  {
    if events != [] {
      var s := events[..|events| - 1];
      var e := events[|events| - 1];
      assert events == s + [e];
      SurvivorKeysIn(m, s);
      FilterSnoc(m, s, e);
      KeysOfSnoc(s, e);
    }
  }

  /** Once a key's window has fully elapsed on the clock, an event with that
      key survives again; while the window is open it is dropped. */
  lemma WindowReopens(m: map<string, int>, ticks: seq<int>, e: Event)
    requires e.duplication.Some? && e.duplication.value.key in m && m[e.duplication.value.key] > 0
    requires forall i :: 0 <= i < |ticks| ==> ticks[i] >= 0
    ensures Filter(AdvanceAll(m, ticks), [e]).kept == (if Sum(ticks) >= m[e.duplication.value.key] then [e] else [])
  {
    var k := e.duplication.value.key;
    var m' := AdvanceAll(m, ticks);
    CachedWhileWindowOpen(m, ticks, k);
    FilterSnoc(m', [], e);
    assert [] + [e] == [e];
    assert KeysOf([]) == {};
    assert Admitted(m', [], e) <==> k !in m';
  }

  /** The gate of `_.throttle` as written: a keyed event passes when
      `contains` as written reports its key absent. */
  function AdmitsAsWritten(entries: map<string, int>, e: Event): (b: bool)
    // the gate as written lets through no more than the intended one, and
    // differs from it only on inherited names
    ensures b ==> Admitted(entries, [], e)
    ensures e.duplication.Some? && e.duplication.value.key !in InheritedNames ==> (b <==> Admitted(entries, [], e))
  {
    e.duplication.None? || !ContainsAsWritten(entries, e.duplication.value.key)
  }

  /** As written, an event keyed "toString" never passes, not even the
      first one on an empty cache. */
  lemma InheritedKeyDroppedAsWritten(payload: Value, repeatSeconds: int, ticks: seq<int>)
    ensures !AdmitsAsWritten(map[], Event(payload, Some(Duplication("toString", repeatSeconds))))
    ensures forall m: map<string, int> ::
      !AdmitsAsWritten(AdvanceAll(m, ticks), Event(payload, Some(Duplication("toString", repeatSeconds))))
  {
  }

  /** Intended: on an empty cache the first event of a batch survives
      whatever its key, and its key is cached with its window. */
  lemma EmptyCacheAdmits(e: Event)
    ensures Filter(map[], [e]).kept == [e]
    ensures e.duplication.Some? ==>
      Filter(map[], [e]).cache == map[e.duplication.value.key := e.duplication.value.repeatSeconds]
  {
    FilterSnoc(map[], [], e);
    assert [] + [e] == [e];
    assert KeysOf([]) == {};
  }

  /** `throttleFreeEvents(events)` on the given cache: the loop of
      `_.throttleFreeEventsFilter`, with the gate of `_.throttle` inlined. */
  method ThrottleFreeEvents(cache: TemporaryCache, events: seq<Event>) returns (kept: seq<Event>)
    modifies cache
    ensures kept == Filter(old(cache.entries), events).kept
    ensures cache.entries == Filter(old(cache.entries), events).cache
  {
    kept := [];
    var i := 0;
    while i < |events|
      invariant 0 <= i <= |events|
      invariant kept == Filter(old(cache.entries), events[..i]).kept
      invariant cache.entries == Filter(old(cache.entries), events[..i]).cache
    {
      var event := events[i];
      assert events[..i + 1][..i] == events[..i];
      match event.duplication {
        case None =>
          kept := kept + [event];
        case Some(duplication) =>
          if !cache.Contains(duplication.key) {
            kept := kept + [event];
            cache.Put(duplication.key, duplication.repeatSeconds);
          }
      }
      i := i + 1;
    }
    assert events[..|events|] == events;
  }
}
