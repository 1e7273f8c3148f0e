/** The fixed-window limiter: one counter per key, and a refusal once it has passed `max`. */
module RateLimit {
  import opened Wrappers
  import opened ExpiringCounter

  /** One evaluation of the script: when, and what the counter then held. */
  datatype Hit = Hit(at: nat, window: Window)

  /** The counter after a sequence of calls at the given times. */
  function WindowAfter(times: seq<nat>, seconds: nat): Option<Window>
  {
    if times == [] then None
    else
      var n := |times| - 1;
      Some(Incremented(WindowAfter(times[..n], seconds), times[n], seconds))
  }

  /** The calls that were let through. */
  function Admissions(times: seq<nat>, max: int, seconds: nat): seq<Hit>
  {
    if times == [] then []
    else
      var n := |times| - 1;
      var w := WindowAfter(times, seconds).value;
      Admissions(times[..n], max, seconds) + (if w.count <= max then [Hit(times[n], w)] else [])
  }

  function Times(hits: seq<Hit>): (r: seq<nat>)
    ensures |r| == |hits|
  {
    seq(|hits|, i requires 0 <= i < |hits| => hits[i].at)
  }

  // ---------- the calls let through follow one another like the counter ----------

  /** The next call let through after `a`: the next place in the same window, or the first of a later one. */
  predicate Follows(a: Hit, b: Hit, seconds: nat)
  {
    && a.at <= b.at
    && if b.window.count == 1 then a.window.until <= b.at && b.window.until == b.at + seconds
       else b.at < a.window.until && b.window == Window(a.window.count + 1, a.window.until)
  }

  predicate Chained(hits: seq<Hit>, max: int, seconds: nat)
  {
    && (forall i :: 0 <= i < |hits| ==>
          1 <= hits[i].window.count <= max && hits[i].at <= hits[i].window.until <= hits[i].at + seconds
          && (hits[i].window.count == 1 ==> hits[i].window.until == hits[i].at + seconds))
    && (forall i :: 0 < i < |hits| ==> Follows(hits[i - 1], hits[i], seconds))
  }

  /** The counter continues the last window in which a call was let through, full or not. */
  predicate Continues(hits: seq<Hit>, times: seq<nat>, max: int, seconds: nat)
  {
    var w := WindowAfter(times, seconds);
    if times == [] then hits == []
    else if max < 1 then hits == []
    else
      && hits != [] && hits[|hits| - 1].at <= times[|times| - 1]
      && w.Some? && w.value.until == hits[|hits| - 1].window.until
      && hits[|hits| - 1].window.count == (if w.value.count <= max then w.value.count else max)
      && w.value.count >= 1
  }

  lemma {:induction false} AdmissionsChain(times: seq<nat>, max: int, seconds: nat)
    requires Ordered(times)
    ensures Chained(Admissions(times, max, seconds), max, seconds)
    ensures Continues(Admissions(times, max, seconds), times, max, seconds)
  {
    if times != [] {
      var n := |times| - 1;
      AdmissionsChain(times[..n], max, seconds);
    }
  }

  /** The first of the following calls let through in a new window comes as soon as this window is full. */
  lemma {:induction false} NextWindow(hits: seq<Hit>, max: int, seconds: nat, i: nat) returns (j: nat)
    requires Chained(hits, max, seconds) && i < |hits|
    requires i + (max - hits[i].window.count) + 1 < |hits|
    ensures i < j <= i + (max - hits[i].window.count) + 1
    ensures hits[j].window.count == 1 && hits[i].window.until <= hits[j].at
    decreases |hits| - i
  {
    assert Follows(hits[i], hits[i + 1], seconds);
    if hits[i + 1].window.count == 1 {
      j := i + 1;
    } else {
      j := NextWindow(hits, max, seconds, i + 1);
    }
  }

  lemma {:induction false} ChainedIsOrdered(hits: seq<Hit>, max: int, seconds: nat, i: nat, j: nat)
    requires Chained(hits, max, seconds) && i <= j < |hits|
    ensures hits[i].at <= hits[j].at
  {
    if i < j {
      ChainedIsOrdered(hits, max, seconds, i, j - 1);
      assert Follows(hits[j - 1], hits[j], seconds);
    }
  }

  /** Any `2 * max` calls let through in a row take longer than a window. */
  lemma ChainedIsSpaced(hits: seq<Hit>, max: int, seconds: nat, i: nat)
    requires max >= 1 && Chained(hits, max, seconds) && i + 2 * max - 1 < |hits|
    ensures hits[i].at + seconds <= hits[i + 2 * max - 1].at
  {
    var j := NextWindow(hits, max, seconds, i);
    if hits[i].window.count == 1 {
      ChainedIsOrdered(hits, max, seconds, j, i + 2 * max - 1);
    } else {
      var k := NextWindow(hits, max, seconds, j);
      ChainedIsOrdered(hits, max, seconds, i, j);
      ChainedIsOrdered(hits, max, seconds, k, i + 2 * max - 1);
    }
  }

  /**
   However the calls for a key are interleaved, every half-open interval of one window's length lets
   through at most `2 * max - 1` of them, and none at all when `max` is below one.
   */
  lemma AdmittedPerInterval(times: seq<nat>, max: int, seconds: nat, from: nat)
    requires Ordered(times)
    ensures CountIn(Times(Admissions(times, max, seconds)), from, from + seconds)
            <= if max < 1 then 0 else 2 * max - 1
  {
    var hits := Admissions(times, max, seconds);
    AdmissionsChain(times, max, seconds);
    if max >= 1 {
      forall i, j | 0 <= i < j < |hits|
        ensures Times(hits)[i] <= Times(hits)[j]
      {
        ChainedIsOrdered(hits, max, seconds, i, j);
      }
      forall i | 0 <= i && i + (2 * max - 1) < |hits|
        ensures Times(hits)[i] + seconds <= Times(hits)[i + (2 * max - 1)]
      {
        ChainedIsSpaced(hits, max, seconds, i);
      }
      SpacedIsSparse(Times(hits), 2 * max - 1, seconds, from);
    }
  }

  /** With `max == 1`, calls let through are a whole window apart. */
  lemma OneAtATime(times: seq<nat>, seconds: nat, i: nat)
    requires Ordered(times) && i + 1 < |Admissions(times, 1, seconds)|
    ensures var hits := Admissions(times, 1, seconds);
            hits[i].at + seconds <= hits[i + 1].at
  {
    AdmissionsChain(times, 1, seconds);
    ChainedIsSpaced(Admissions(times, 1, seconds), 1, seconds, i);
  }

  /** Refused calls never extend the window: however many there are, the counter goes when it was due to. */
  lemma {:induction false} RefusalsExtendNothing(times: seq<nat>, more: seq<nat>, seconds: nat)
    requires times != [] && Ordered(times + more)
    requires forall i :: 0 <= i < |more| ==> more[i] < WindowAfter(times, seconds).value.until
    ensures WindowAfter(times + more, seconds).value
            == Window(WindowAfter(times, seconds).value.count + |more|, WindowAfter(times, seconds).value.until)
  {
    if more == [] {
      assert times + more == times;
    } else {
      var n := |more| - 1;
      assert (times + more)[..|times| + n] == times + more[..n];
      RefusalsExtendNothing(times, more[..n], seconds);
    }
  }

  // ---------- the bound is met ----------

  lemma OneMoreCall(times: seq<nat>, now: nat, max: int, seconds: nat)
    ensures var w := Incremented(WindowAfter(times, seconds), now, seconds);
            && WindowAfter(times + [now], seconds) == Some(w)
            && Admissions(times + [now], max, seconds)
               == Admissions(times, max, seconds) + (if w.count <= max then [Hit(now, w)] else [])
  {
    assert (times + [now])[..|times|] == times;
  }

  /** One call, a second before its window ends all but the last place in it, and a full window after that. */
  function Busiest(max: nat, seconds: nat): seq<nat>
    requires max >= 1 && seconds >= 2
  {
    [0] + seq(max - 1, _ => seconds - 1) + seq(max, _ => seconds)
  }

  lemma OneMoreAdmission(times: seq<nat>, now: nat, max: int, seconds: nat)
    requires Incremented(WindowAfter(times, seconds), now, seconds).count <= max
    ensures Times(Admissions(times + [now], max, seconds)) == Times(Admissions(times, max, seconds)) + [now]
  {
    hide WindowAfter, Admissions;
    OneMoreCall(times, now, max, seconds);
  }

  /** The counter after `n` of the busiest calls. */
  function BusyWindow(max: nat, seconds: nat, n: nat): Option<Window>
  {
    if n == 0 then None else Some(if n <= max then Window(n, seconds) else Window(n - max, 2 * seconds))
  }

  lemma {:induction false} BusiestWindow(max: nat, seconds: nat, n: nat)
    requires max >= 1 && seconds >= 2 && n <= 2 * max
    ensures WindowAfter(Busiest(max, seconds)[..n], seconds) == BusyWindow(max, seconds, n)
    ensures Times(Admissions(Busiest(max, seconds)[..n], max, seconds)) == Busiest(max, seconds)[..n]
  {
    if n > 0 {
      hide WindowAfter, Admissions, Times;
      var before, now := Busiest(max, seconds)[..n - 1], Busiest(max, seconds)[n - 1];
      BusiestWindow(max, seconds, n - 1);
      assert Busiest(max, seconds)[..n] == before + [now];
      assert Incremented(BusyWindow(max, seconds, n - 1), now, seconds) == BusyWindow(max, seconds, n).value;
      OneMoreCall(before, now, max, seconds);
      OneMoreAdmission(before, now, max, seconds);
    }
  }

  /** The bound is reached for every `max` and every window of at least two seconds. */
  lemma BoundIsMet(max: nat, seconds: nat)
    requires max >= 1 && seconds >= 2
    ensures Ordered(Busiest(max, seconds))
    ensures CountIn(Times(Admissions(Busiest(max, seconds), max, seconds)), seconds - 1, seconds - 1 + seconds)
            == 2 * max - 1
  {
    var all := Busiest(max, seconds);
    BusiestWindow(max, seconds, 2 * max);
    assert all[..2 * max] == all;
    CountLate(all, 1, seconds - 1, seconds - 1 + seconds);
  }

  // ---------- the decorator ----------

  lemma {:induction false} WindowIsShort(times: seq<nat>, seconds: nat)
    requires Ordered(times) && times != []
    ensures WindowAfter(times, seconds).Some?
    ensures WindowAfter(times, seconds).value.until <= times[|times| - 1] + seconds
  {
    var n := |times| - 1;
    if n > 0 {
      WindowIsShort(times[..n], seconds);
    }
  }

  class Limiter {
    const max: int
    const windowSec: nat
    var counters: map<string, Window>
    ghost var calls: map<string, seq<nat>>
    ghost var admitted: map<string, seq<Hit>>

    constructor (max: int, windowSec: nat)
      ensures Valid() && this.max == max && this.windowSec == windowSec && counters == map[]
      ensures forall key :: CallsOf(key) == []
    {
      this.max, this.windowSec := max, windowSec;
      counters, calls, admitted := map[], map[], map[];
    }

    function Counter(key: string): Option<Window>
      reads this
    {
      if key in counters then Some(counters[key]) else None
    }

    ghost function CallsOf(key: string): seq<nat>
      reads this
    {
      if key in calls then calls[key] else []
    }

    ghost function AdmittedOf(key: string): seq<Hit>
      reads this
    {
      if key in admitted then admitted[key] else []
    }

    /** A key's counter and the calls it let through are what the calls made with it come to. */
    ghost predicate Explains(key: string)
      reads this
    {
      && Ordered(CallsOf(key)) && Counter(key) == WindowAfter(CallsOf(key), windowSec)
      && AdmittedOf(key) == Admissions(CallsOf(key), max, windowSec)
    }

    ghost predicate Valid()
      reads this
    {
      forall key :: Explains(key)
    }

    /** No call has been made after `now`. */
    ghost predicate Reached(key: string, now: nat)
      reads this
    {
      forall i :: 0 <= i < |CallsOf(key)| ==> CallsOf(key)[i] <= now
    }

    /** The script, which runs in one piece, and the decision; only an admitted call reaches the method. */
    method Call(key: string, now: nat) returns (ok: bool)
      requires Valid() && Reached(key, now)
      modifies this
      ensures Valid() && CallsOf(key) == old(CallsOf(key)) + [now]
      ensures Counter(key) == Some(Incremented(old(Counter(key)), now, windowSec))
      ensures var w := old(Counter(key));
              Counter(key) == Some(if w.Some? && now < w.value.until then Window(w.value.count + 1, w.value.until)
                                   else Window(1, now + windowSec))
      ensures AdmittedOf(key) == old(AdmittedOf(key)) + (if ok then [Hit(now, Counter(key).value)] else [])
      ensures ok <==> Counter(key).value.count <= max
      ensures forall k :: k != key ==>
                CallsOf(k) == old(CallsOf(k)) && AdmittedOf(k) == old(AdmittedOf(k)) && Counter(k) == old(Counter(k))
    {
      hide WindowAfter, Admissions;
      assert Explains(key);
      OneMoreCall(CallsOf(key), now, max, windowSec);
      var current, until := 1, now + windowSec;
      if key in counters && now < counters[key].until {
        current, until := counters[key].count + 1, counters[key].until;
      }
      counters := counters[key := Window(current, until)];
      calls := calls[key := CallsOf(key) + [now]];
      ok := current <= max;
      admitted := admitted[key := AdmittedOf(key) + (if ok then [Hit(now, counters[key])] else [])];
      forall k
        ensures Explains(k)
      {
        assert old(Explains(k));
      }
    }

    /** What a refused caller is told, at whatever moment it asks: the rest of the window that is open then. */
    method RetryAfter(key: string, now: nat) returns (seconds: nat)
      requires Valid() && Reached(key, now) && CallsOf(key) != []
      ensures windowSec > 0 ==> 1 <= seconds <= windowSec
      ensures Live(Counter(key), now) ==> now + seconds == Counter(key).value.until
    {
      assert Explains(key);
      WindowIsShort(CallsOf(key), windowSec);
      var ttl := counters[key].until - now;
      seconds := if ttl > 0 then ttl else windowSec;
    }
  }
}
