/** A Redis counter that expires a fixed time after its first increment, and counting over time. */
module ExpiringCounter {
  import opened Wrappers

  /** The counter's value and the second at which the key disappears. */
  datatype Window = Window(count: nat, until: nat)

  predicate Live(w: Option<Window>, now: nat)
  {
    w.Some? && now < w.value.until
  }

  /** INCR, then EXPIRE when the count has become one. */
  function Incremented(w: Option<Window>, now: nat, seconds: nat): Window
  {
    if Live(w, now) then Window(w.value.count + 1, w.value.until) else Window(1, now + seconds)
  }

  /** How many of `times` fall in the half-open interval from `from` to `to`. */
  function CountIn(times: seq<nat>, from: nat, to: nat): nat
  {
    if times == [] then 0
    else
      var last := times[|times| - 1];
      CountIn(times[..|times| - 1], from, to) + (if from <= last < to then 1 else 0)
  }

  /** Entries `n` apart in the sequence are at least `seconds` apart in time. */
  predicate Spaced(times: seq<nat>, n: nat, seconds: nat)
  {
    forall i :: 0 <= i && i + n < |times| ==> times[i] + seconds <= times[i + n]
  }

  predicate Ordered(times: seq<nat>)
  {
    forall i, j :: 0 <= i < j < |times| ==> times[i] <= times[j]
  }

  lemma {:induction false} EarlyOnesDoNotCount(times: seq<nat>, m: nat, from: nat, to: nat)
    requires m <= |times| && forall i :: 0 <= i < m ==> times[i] < from
    ensures CountIn(times, from, to) <= |times| - m
  {
    if times != [] {
      var n := |times| - 1;
      EarlyOnesDoNotCount(times[..n], if m <= n then m else n, from, to);
    }
  }

  /** Spaced entries are sparse: no interval of that length holds more than `n`. */
  lemma {:induction false} SpacedIsSparse(times: seq<nat>, n: nat, seconds: nat, from: nat)
    requires n > 0 && Ordered(times) && Spaced(times, n, seconds)
    ensures CountIn(times, from, from + seconds) <= n
  {
    if times != [] {
      var m := |times| - 1;
      if from <= times[m] < from + seconds {
        if m >= n {
          assert times[m - n] + seconds <= times[m];
          EarlyOnesDoNotCount(times, m - n + 1, from, from + seconds);
        } else {
          EarlyOnesDoNotCount(times, 0, from, from + seconds);
        }
      } else {
        SpacedIsSparse(times[..m], n, seconds, from);
      }
    }
  }

  /** When all entries from `m` on fall in the interval and none before does, they are what is counted. */
  lemma {:induction false} CountLate(times: seq<nat>, m: nat, from: nat, to: nat)
    requires m <= |times|
    requires forall i :: 0 <= i < m ==> times[i] < from
    requires forall i :: m <= i < |times| ==> from <= times[i] < to
    ensures CountIn(times, from, to) == |times| - m
  {
    if times != [] {
      var n := |times| - 1;
      CountLate(times[..n], if m <= n then m else n, from, to);
    }
  }
}
