/** `_.TemporaryCache`: a map from keys to the number of clock ticks they
    stay cached, decremented by `advanceTime`. */
module Caching {
  import opened Wrappers

  /** The entries left after advancing the clock by `ticks` from `m`: every
      entry loses `ticks`, and those that reach zero or less are evicted. */
  function Advanced(m: map<string, int>, ticks: int): map<string, int> {
    map k | k in m && m[k] - ticks > 0 :: m[k] - ticks
  }

  /** The entries after advancing the clock by each amount of `ticks` in turn. */
  function AdvanceAll(m: map<string, int>, ticks: seq<int>): map<string, int>
    decreases |ticks|
  {
    if ticks == [] then m else AdvanceAll(Advanced(m, ticks[0]), ticks[1..])
  }

  function Sum(ticks: seq<int>): int
    decreases |ticks|
  {
    if ticks == [] then 0 else ticks[0] + Sum(ticks[1..])
  }

  /** One more advance after a series is the series extended by it, so
      successive `advanceTime` calls compose into `AdvanceAll`. */
  lemma {:induction false} AdvanceAllSnoc(m: map<string, int>, ticks: seq<int>, t: int)
    ensures AdvanceAll(m, ticks + [t]) == Advanced(AdvanceAll(m, ticks), t)
    decreases |ticks|
  {
    if ticks == [] {
      assert [] + [t] == [t];
      assert AdvanceAll(Advanced(m, t), []) == Advanced(m, t);
    } else {
      assert (ticks + [t])[1..] == ticks[1..] + [t];
      AdvanceAllSnoc(Advanced(m, ticks[0]), ticks[1..], t);
    }
  }

  /** Advancing never adds a key, and an entry still present after several
      advances has lost exactly their total. */
  lemma {:induction false} AdvanceAllSurvivor(m: map<string, int>, ticks: seq<int>, k: string)
    requires k in AdvanceAll(m, ticks)
    ensures k in m
    ensures AdvanceAll(m, ticks)[k] == m[k] - Sum(ticks)
    ensures AdvanceAll(m, ticks)[k] > 0 || ticks == []
    decreases |ticks|
  {
    if ticks != [] {
      var m' := Advanced(m, ticks[0]);
      AdvanceAllSurvivor(m', ticks[1..], k);
      if ticks[1..] == [] {
        assert AdvanceAll(m', ticks[1..]) == m';
      }
    }
  }

  /** A key put with `n > 0` ticks is gone once at least `n` ticks have been
      advanced in total. */
  lemma ExpiresAfterWindow(m: map<string, int>, ticks: seq<int>, k: string)
    requires k in m && m[k] > 0
    requires Sum(ticks) >= m[k]
    ensures k !in AdvanceAll(m, ticks)
  {
    if k in AdvanceAll(m, ticks) {
      AdvanceAllSurvivor(m, ticks, k);
    }
  }

  /** Under a clock that never runs backwards, a key put with `n > 0` ticks
      stays cached exactly while fewer than `n` ticks have been advanced. */
  lemma {:induction false} CachedWhileWindowOpen(m: map<string, int>, ticks: seq<int>, k: string)
    requires k in m && m[k] > 0
    requires forall i :: 0 <= i < |ticks| ==> ticks[i] >= 0
    ensures k in AdvanceAll(m, ticks) <==> Sum(ticks) < m[k]
    decreases |ticks|
  {
    if ticks == [] {
    } else {
      var m' := Advanced(m, ticks[0]);
      if k in m' {
        CachedWhileWindowOpen(m', ticks[1..], k);
      } else {
        SumNonNegative(ticks[1..]);
        AdvanceAllKeys(m', ticks[1..], k);
      }
    }
  }

  lemma {:induction false} SumNonNegative(ticks: seq<int>)
    requires forall i :: 0 <= i < |ticks| ==> ticks[i] >= 0
    ensures Sum(ticks) >= 0
    decreases |ticks|
  {
    if ticks != [] {
      SumNonNegative(ticks[1..]);
    }
  }

  /** Advancing never brings back a key that is absent. */
  lemma AdvanceAllKeys(m: map<string, int>, ticks: seq<int>, k: string)
    requires k !in m
    ensures k !in AdvanceAll(m, ticks)
  {
    if k in AdvanceAll(m, ticks) {
      AdvanceAllSurvivor(m, ticks, k);
    }
  }

  /** The names every plain JavaScript object inherits from `Object.prototype`. */
  const InheritedNames: set<string> := {
    "constructor", "hasOwnProperty", "isPrototypeOf", "propertyIsEnumerable",
    "toLocaleString", "toString", "valueOf", "__proto__",
    "__defineGetter__", "__defineSetter__", "__lookupGetter__", "__lookupSetter__"
  }

  /** `contains` as written: `cache[item]` on an object literal also finds the
      inherited names, so they read as cached whatever was put. */
  function ContainsAsWritten(entries: map<string, int>, item: string): (b: bool)
    ensures item in InheritedNames ==> b
    ensures item !in InheritedNames ==> (b <==> item in entries)
  {
    item in entries || item in InheritedNames
  }

  class TemporaryCache {
    var entries: map<string, int>

    /** `new _.TemporaryCache()`: an empty cache. */
    constructor ()
      ensures entries == map[]
    {
      entries := map[];
    }

    /** `contains(item)`: the key has an entry. This is the intended reading
        (see ContainsAsWritten). */
    function Contains(item: string): (b: bool)
      reads this
      // agrees with the source's test except on names inherited from Object.prototype
      ensures b ==> ContainsAsWritten(entries, item)
      ensures item !in InheritedNames ==> (b <==> ContainsAsWritten(entries, item))
    {
      item in entries
    }

    /** `_ticksFor(key)`: the remaining ticks, none (undefined) if absent. */
    function TicksFor(item: string): (r: Option<int>)
      reads this
      ensures r.Some? <==> Contains(item)
      ensures r.Some? ==> r.value == entries[item]
    {
      if item in entries then Some(entries[item]) else None
    }

    /** `put(item, ticks)`: caches the key with `ticks`, replacing any old count. */
    method Put(item: string, ticks: int)
      modifies this
      ensures entries == old(entries)[item := ticks]
      ensures Contains(item) && TicksFor(item) == Some(ticks)
      ensures forall k :: k != item ==> TicksFor(k) == old(TicksFor(k))
    {
      entries := entries[item := ticks];
    }

    /** `advanceTime(ticks)`: rebuilds the cache from the entries whose
        remaining ticks stay positive. */
    method AdvanceTime(ticks: int)
      modifies this
      ensures entries == Advanced(old(entries), ticks)
      ensures forall k :: k in entries <==> k in old(entries) && old(entries)[k] - ticks > 0
      ensures forall k :: k in entries ==> entries[k] == old(entries)[k] - ticks
    {
      var newEntries: map<string, int> := map[];
      var todo := entries.Keys;
      while todo != {}
        invariant todo <= entries.Keys
        invariant forall k :: k in newEntries <==> k in entries && k !in todo && entries[k] - ticks > 0
        invariant forall k :: k in newEntries ==> newEntries[k] == entries[k] - ticks
        decreases todo
      {
        var item :| item in todo;
        var newTicks := entries[item] - ticks;
        if newTicks > 0 {
          newEntries := newEntries[item := newTicks];
        }
        todo := todo - {item};
      }
      entries := newEntries;
    }

    /** One beat of the clock `startClock` runs every second. */
    method Tick()
      modifies this
      ensures entries == Advanced(old(entries), 1)
    {
      AdvanceTime(1);
    }
  }
}
