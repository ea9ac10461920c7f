/** Click debouncing (com.example.bartender.OnSingleClickListener and the custom-interval
    `setOnSingleClickListener`): a click is passed on only when more than the interval has
    passed since the last click that was passed on. */
module SingleClick {

  const DEFAULT_INTERVAL_MILLIS: int := 1000

  /** A reading of the monotonic clock: milliseconds since boot, a non-negative `Long`. The
      difference of two readings fits in a `Long`, so the source's subtraction never wraps. */
  type Millis = t: int | 0 <= t < 0x8000_0000_0000_0000

  /** What one click does: whether the callback runs, and the new last-click time. */
  datatype ClickOutcome = ClickOutcome(fired: bool, lastClickTime: Millis)

  function Click(last: Millis, now: Millis, interval: int): (o: ClickOutcome)
    ensures o.fired <==> now - last > interval
    ensures o.fired ==> o.lastClickTime == now
    ensures !o.fired ==> o.lastClickTime == last
  {
    if now - last > interval then ClickOutcome(true, now) else ClickOutcome(false, last)
  }

  class OnSingleClickListener {
    const intervalMillis: int
    var lastClickTime: Millis

    /** The listener class: a one-second interval, no click yet (time 0). */
    constructor ()
      ensures intervalMillis == DEFAULT_INTERVAL_MILLIS && lastClickTime == 0
    {
      intervalMillis := DEFAULT_INTERVAL_MILLIS;
      lastClickTime := 0;
    }

    /** The anonymous listener of the custom-interval variant: the same state machine with the
        given interval. */
    constructor WithInterval(intervalMillis: int)
      ensures this.intervalMillis == intervalMillis && lastClickTime == 0
    {
      this.intervalMillis := intervalMillis;
      lastClickTime := 0;
    }

    /** `onClick` at clock reading `now`; `fired` says whether the callback ran. */
    method OnClick(now: Millis) returns (fired: bool)
      modifies this
      ensures fired <==> now - old(lastClickTime) > intervalMillis
      ensures lastClickTime == if fired then now else old(lastClickTime)
      ensures ClickOutcome(fired, lastClickTime) == Click(old(lastClickTime), now, intervalMillis)
    {
      var delta := now - lastClickTime;
      fired := false;
      if delta > intervalMillis {
        lastClickTime := now;
        fired := true;
      }
    }
  }

  /** The last-click time after a run of clicks at the given times. */
  function After(last: Millis, times: seq<Millis>, interval: int): Millis
  {
    if times == [] then last
    else Click(After(last, times[..|times| - 1], interval), times[|times| - 1], interval).lastClickTime
  }

  /** Whether the click at position `k` of a run fires. */
  predicate FiresAt(last: Millis, times: seq<Millis>, interval: int, k: nat)
    requires k < |times|
  {
    Click(After(last, times[..k], interval), times[k], interval).fired
  }

  predicate NonDecreasing(times: seq<Millis>)
  {
    forall i, j :: 0 <= i < j < |times| ==> times[i] <= times[j]
  }

  /** A fresh listener swallows every click up to one second after boot. */
  lemma EarlyClickSwallowed(now: Millis)
    requires now <= DEFAULT_INTERVAL_MILLIS
    ensures !Click(0, now, DEFAULT_INTERVAL_MILLIS).fired
  {
  }

  /** Suppressed clicks change nothing: after a run in which no click fires, the last-click time
      is what it was, so a burst of early clicks does not push the window back. */
  lemma {:induction false} SuppressedRunKeepsState(last: Millis, times: seq<Millis>, interval: int)
    requires forall k :: 0 <= k < |times| ==> !FiresAt(last, times, interval, k)
    ensures After(last, times, interval) == last
  {
    if times != [] {
      var n := |times| - 1;
      var prefix := times[..n];
      forall k | 0 <= k < |prefix|
        ensures !FiresAt(last, prefix, interval, k)
      {
        assert prefix[..k] == times[..k] && prefix[k] == times[k];
        assert !FiresAt(last, times, interval, k);
      }
      SuppressedRunKeepsState(last, prefix, interval);
      assert times[..n] == prefix;
      assert !FiresAt(last, times, interval, n);
    }
  }

  /** Once the click at position `i` has fired, the last-click time never drops below its time
      while the clock does not go backwards. */
  lemma {:induction false} LastClickAtLeastFired(last: Millis, times: seq<Millis>, interval: int, i: nat, k: nat)
    requires NonDecreasing(times)
    requires i < k <= |times| && FiresAt(last, times, interval, i)
    ensures After(last, times[..k], interval) >= times[i]
  {
    var pre := times[..k];
    assert pre[..k - 1] == times[..k - 1];
    if k == i + 1 {
      assert pre[k - 1] == times[i];
    } else {
      LastClickAtLeastFired(last, times, interval, i, k - 1);
      assert pre[k - 1] == times[k - 1];
    }
  }

  /** Any two clicks that fire are more than the interval apart. */
  lemma FiredClicksAreSpaced(last: Millis, times: seq<Millis>, interval: int, i: nat, j: nat)
    requires NonDecreasing(times)
    requires i < j < |times|
    requires FiresAt(last, times, interval, i) && FiresAt(last, times, interval, j)
    ensures times[j] - times[i] > interval
  {
    LastClickAtLeastFired(last, times, interval, i, j);
  }
}
