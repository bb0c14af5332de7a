/** `_.Cron`: runs a task when at least `repeatSeconds` have passed since
    it last ran or was delayed. The wall clock is the argument `now`, in
    milliseconds, and the `setInterval` poll is the method `Poll`. */
module Scheduling {

  /** The firing rule: `now - lastRun >= repeatSeconds * 1000`. */
  predicate Due(lastRun: int, repeatSeconds: int, now: int) {
    now - lastRun >= repeatSeconds * 1000
  }

  class Cron {
    var lastRun: int
    const repeatSeconds: int

    /** `new _.Cron(task, repeatSeconds)` at time `now`. */
    constructor (repeatSeconds: int, now: int)
      ensures this.repeatSeconds == repeatSeconds && lastRun == now
    {
      this.repeatSeconds := repeatSeconds;
      lastRun := now;
    }

    /** `delay()`: restarts the window at `now` without running the task. */
    method Delay(now: int)
      modifies this
      ensures lastRun == now
    {
      lastRun := now;
    }

    /** One poll at `now`: reports whether the task runs, and records the run. */
    method Poll(now: int) returns (fired: bool)
      modifies this
      ensures fired <==> Due(old(lastRun), repeatSeconds, now)
      ensures lastRun == if fired then now else old(lastRun)
    {
      fired := now - lastRun >= repeatSeconds * 1000;
      if fired {
        lastRun := now;
      }
    }

    /** Successive polls at the times `polls`, with no delay in between:
        the task runs at exactly the times `FireTimes` gives. */
    method PollAll(polls: seq<int>) returns (fired: seq<int>)
      modifies this
      ensures fired == FireTimes(old(lastRun), repeatSeconds, polls)
      ensures lastRun == if fired == [] then old(lastRun) else fired[|fired| - 1]
    {
      fired := [];
      var i := 0;
      while i < |polls|
        invariant 0 <= i <= |polls|
        invariant fired + FireTimes(lastRun, repeatSeconds, polls[i..]) == FireTimes(old(lastRun), repeatSeconds, polls)
        invariant lastRun == if fired == [] then old(lastRun) else fired[|fired| - 1]
      {
        assert polls[i..][1..] == polls[i + 1..];
        ghost var rest := FireTimes(lastRun, repeatSeconds, polls[i..]);
        var f := Poll(polls[i]);
        if f {
          assert rest == [polls[i]] + FireTimes(lastRun, repeatSeconds, polls[i + 1..]);
          assert fired + rest == (fired + [polls[i]]) + FireTimes(lastRun, repeatSeconds, polls[i + 1..]);
          fired := fired + [polls[i]];
        } else {
          assert rest == FireTimes(lastRun, repeatSeconds, polls[i + 1..]);
        }
        i := i + 1;
      }
    }
  }

  /** The times at which polls at `polls` run the task, from `lastRun` on,
      with no delay in between. */
  function FireTimes(lastRun: int, repeatSeconds: int, polls: seq<int>): (r: seq<int>)
    ensures |r| <= |polls|
    decreases |polls|
  {
    if polls == [] then []
    else if Due(lastRun, repeatSeconds, polls[0]) then [polls[0]] + FireTimes(polls[0], repeatSeconds, polls[1..])
    else FireTimes(lastRun, repeatSeconds, polls[1..])
  }

  /** Each time in `times` is at least the interval after the one before it
      (the first, after `from`). */
  predicate Spaced(from: int, repeatSeconds: int, times: seq<int>)
    decreases |times|
  {
    times == [] || (Due(from, repeatSeconds, times[0]) && Spaced(times[0], repeatSeconds, times[1..]))
  }

  /** The task never runs before the interval has elapsed since its last run. */
  lemma {:induction false} FiresSpaced(lastRun: int, repeatSeconds: int, polls: seq<int>)
    ensures Spaced(lastRun, repeatSeconds, FireTimes(lastRun, repeatSeconds, polls))
    decreases |polls|
  {
    if polls != [] {
      if Due(lastRun, repeatSeconds, polls[0]) {
        FiresSpaced(polls[0], repeatSeconds, polls[1..]);
      } else {
        FiresSpaced(lastRun, repeatSeconds, polls[1..]);
      }
    }
  }

  /** With polls at most `period` apart (500 ms for the source's `setInterval`) that reach the due time, the task
      runs, and it does so less than one period after it became due. */
  lemma {:induction false} FiresWithinOnePeriod(lastRun: int, repeatSeconds: int, polls: seq<int>, period: int)
    requires polls != []
    requires forall i :: 0 < i < |polls| ==> polls[i - 1] <= polls[i] <= polls[i - 1] + period
    requires polls[0] < lastRun + repeatSeconds * 1000 + period
    requires Due(lastRun, repeatSeconds, polls[|polls| - 1])
    ensures FireTimes(lastRun, repeatSeconds, polls) != []
    ensures FireTimes(lastRun, repeatSeconds, polls)[0] < lastRun + repeatSeconds * 1000 + period
    decreases |polls|
  {
    if !Due(lastRun, repeatSeconds, polls[0]) {
      var rest := polls[1..];
      assert rest != [];
      assert polls[1] <= polls[0] + period;
      forall i | 0 < i < |rest| ensures rest[i - 1] <= rest[i] <= rest[i - 1] + period {
        assert rest[i - 1] == polls[i] && rest[i] == polls[i + 1];
      }
      FiresWithinOnePeriod(lastRun, repeatSeconds, rest, period);
    }
  }
}
