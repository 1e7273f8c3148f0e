/** The lockout script and its decorator: failures counted in a window, and a lock once there are too many. */
module Lockout {
  import opened Wrappers
  import opened ExpiringCounter

  datatype Options = Options(threshold: nat, windowSeconds: nat, lockSeconds: nat)

  /** The two keys of one identifier; a lock is the second at which it expires. */
  datatype Keys = Keys(fails: Option<Window>, lock: Option<nat>)

  const NO_KEYS := Keys(None, None)

  /** What the script returns: 0 and the failures, 2 and the seconds of a new lock, 1 and those left of an old one. */
  datatype Status = Counted(fails: nat) | NewLock(seconds: nat) | OldLock(ttl: int)

  predicate Locked(k: Keys, now: nat)
  {
    k.lock.Some? && now < k.lock.value
  }

  function Script(o: Options, k: Keys, now: nat): (Keys, Status)
  {
    if Locked(k, now) then (k, OldLock(k.lock.value - now))
    else
      var fails := Incremented(k.fails, now, o.windowSeconds);
      if fails.count >= o.threshold
      then (Keys(Some(fails), Some(now + o.lockSeconds)), NewLock(o.lockSeconds))
      else (k.(fails := Some(fails)), Counted(fails.count))
  }

  // ---------- a history of failures ----------

  /** A counted failure: when, and the window it was counted in. */
  datatype Failure = Failure(at: nat, window: Window)

  /** The keys after scripts at the given times, from no failures and whatever lock, with nothing else touching them. */
  function KeysAfter(o: Options, lock: Option<nat>, times: seq<nat>): Keys
  {
    if times == [] then Keys(None, lock)
    else Script(o, KeysAfter(o, lock, times[..|times| - 1]), times[|times| - 1]).0
  }

  /** The failures that were counted rather than turned away by a lock. */
  function Failures(o: Options, lock: Option<nat>, times: seq<nat>): seq<Failure>
  {
    if times == [] then []
    else
      var n := |times| - 1;
      var step := Script(o, KeysAfter(o, lock, times[..n]), times[n]);
      Failures(o, lock, times[..n]) + (if step.1.OldLock? then [] else [Failure(times[n], step.0.fails.value)])
  }

  function Times(log: seq<Failure>): (r: seq<nat>)
    ensures |r| == |log|
  {
    seq(|log|, i requires 0 <= i < |log| => log[i].at)
  }

  /** The next counted failure: in the same window unless that is over or the lock it triggered has run out. */
  predicate Follows(o: Options, a: Failure, b: Failure)
  {
    && a.at <= b.at
    && (a.window.count >= o.threshold ==> a.at + o.lockSeconds <= b.at)
    && if b.window.count == 1 then a.window.until <= b.at && b.window.until == b.at + o.windowSeconds
       else b.at < a.window.until && b.window == Window(a.window.count + 1, a.window.until)
  }

  predicate WindowOk(o: Options, f: Failure)
  {
    && f.window.count >= 1 && f.window.until <= f.at + o.windowSeconds
    && (f.window.count == 1 ==> f.window.until == f.at + o.windowSeconds)
  }

  predicate Chained(o: Options, log: seq<Failure>)
  {
    && (forall i :: 0 <= i < |log| ==> WindowOk(o, log[i]))
    && (log != [] ==> log[0].window.count == 1)
    && (forall i :: 0 < i < |log| ==> Follows(o, log[i - 1], log[i]))
  }

  /** The keys are those the last counted failure left. */
  predicate KeysMatch(o: Options, k: Keys, log: seq<Failure>)
  {
    if log == [] then k.fails == None
    else
      var last := log[|log| - 1];
      && k.fails == Some(last.window)
      && (last.window.count >= o.threshold ==> k.lock == Some(last.at + o.lockSeconds))
  }

  function LogAfter(o: Options, k: Keys, log: seq<Failure>, now: nat): seq<Failure>
  {
    var step := Script(o, k, now);
    log + (if step.1.OldLock? then [] else [Failure(now, step.0.fails.value)])
  }

  lemma NextFollows(o: Options, k: Keys, a: Failure, now: nat)
    requires WindowOk(o, a) && a.at <= now && !Locked(k, now) && KeysMatch(o, k, [a])
    ensures var b := Failure(now, Script(o, k, now).0.fails.value);
            Follows(o, a, b) && WindowOk(o, b)
  {
  }

  lemma ChainGrows(o: Options, log: seq<Failure>, b: Failure)
    requires Chained(o, log) && WindowOk(o, b)
    requires if log == [] then b.window.count == 1 else Follows(o, log[|log| - 1], b)
    ensures Chained(o, log + [b])
  {
    hide Follows;
  }

  lemma ScriptKeepsChain(o: Options, k: Keys, log: seq<Failure>, now: nat)
    requires Chained(o, log) && KeysMatch(o, k, log) && (log != [] ==> log[|log| - 1].at <= now)
    ensures Chained(o, LogAfter(o, k, log, now)) && KeysMatch(o, Script(o, k, now).0, LogAfter(o, k, log, now))
  {
    if !Locked(k, now) {
      hide Chained, Follows;
      if log != [] {
        assert WindowOk(o, log[|log| - 1]) by { LastIsOk(o, log); }
        NextFollows(o, k, log[|log| - 1], now);
      }
      ChainGrows(o, log, Failure(now, Script(o, k, now).0.fails.value));
    }
  }

  lemma LastIsOk(o: Options, log: seq<Failure>)
    requires Chained(o, log) && log != []
    ensures WindowOk(o, log[|log| - 1])
  {
  }

  lemma {:induction false} FailuresChain(o: Options, lock: Option<nat>, times: seq<nat>)
    requires Ordered(times)
    ensures var log := Failures(o, lock, times);
            && Chained(o, log) && KeysMatch(o, KeysAfter(o, lock, times), log)
            && (log != [] ==> times != [] && log[|log| - 1].at <= times[|times| - 1])
  {
    hide Script, Chained, KeysMatch;
    if times != [] {
      var before := times[..|times| - 1];
      FailuresChain(o, lock, before);
      ScriptKeepsChain(o, KeysAfter(o, lock, before), Failures(o, lock, before), times[|times| - 1]);
    } else {
      NothingChains(o, lock);
    }
  }

  lemma NothingChains(o: Options, lock: Option<nat>)
    ensures Chained(o, []) && KeysMatch(o, Keys(None, lock), [])
  {
  }

  lemma {:induction false} ChainedIsOrdered(o: Options, log: seq<Failure>, i: nat, j: nat)
    requires Chained(o, log) && i <= j < |log|
    ensures log[i].at <= log[j].at
  {
    if i < j {
      ChainedIsOrdered(o, log, i, j - 1);
      assert Follows(o, log[j - 1], log[j]);
    }
  }

  predicate LockOutlastsWindow(o: Options)
  {
    o.lockSeconds >= o.windowSeconds
  }

  /** A lock that outlasts the window never lets a window count past the threshold. */
  lemma {:induction false} CountsStopAtThreshold(o: Options, log: seq<Failure>, i: nat)
    requires o.threshold >= 1 && LockOutlastsWindow(o) && Chained(o, log) && i < |log|
    ensures log[i].window.count <= o.threshold
  {
    if i > 0 {
      CountsStopAtThreshold(o, log, i - 1);
      assert Follows(o, log[i - 1], log[i]);
    }
  }

  /**
   From any failure on, either a new window opens before this one is full, or a lock keeps the next
   failure a whole window away.
   */
  lemma {:induction false} NextBreak(o: Options, log: seq<Failure>, i: nat) returns (j: nat)
    requires o.threshold >= 1 && LockOutlastsWindow(o) && Chained(o, log) && i < |log|
    requires log[i].window.count <= o.threshold && i + (o.threshold - log[i].window.count) + 1 < |log|
    ensures i < j <= i + (o.threshold - log[i].window.count) + 1
    ensures log[i].window.until <= log[j].at && log[j].window.count == 1
    ensures j == i + (o.threshold - log[i].window.count) + 1 ==> log[i].at + o.windowSeconds <= log[j].at
    decreases |log| - i
  {
    assert Follows(o, log[i], log[i + 1]);
    if log[i + 1].window.count == 1 || log[i].window.count == o.threshold {
      j := i + 1;
    } else {
      j := NextBreak(o, log, i + 1);
    }
  }

  /** The failures counted in the window's length that starts at `from`. */
  function FailuresIn(o: Options, lock: Option<nat>, times: seq<nat>, from: nat): nat
  {
    CountIn(Times(Failures(o, lock, times)), from, from + o.windowSeconds)
  }

  /** How many failures one window's length can hold. */
  function MostFailures(o: Options): nat
  {
    if o.threshold <= 1 then 1 else 2 * o.threshold - 2
  }

  lemma ChainedIsSpaced(o: Options, log: seq<Failure>, i: nat)
    requires o.threshold >= 1 && LockOutlastsWindow(o) && Chained(o, log) && i + MostFailures(o) < |log|
    ensures log[i].at + o.windowSeconds <= log[i + MostFailures(o)].at
  {
    var n := MostFailures(o);
    CountsStopAtThreshold(o, log, i);
    var j := NextBreak(o, log, i);
    if log[i].window.count == 1 || j == i + (o.threshold - log[i].window.count) + 1 {
      ChainedIsOrdered(o, log, j, i + n);
    } else {
      var k := NextBreak(o, log, j);
      ChainedIsOrdered(o, log, i, j);
      ChainedIsOrdered(o, log, k, i + n);
    }
  }

  /**
   From any moment without failures on, and as long as nothing resets the keys, every half-open interval of
   one window's length holds at most `2 * threshold - 2` counted failures (one, when the threshold is one),
   however the scripts interleave.
   */
  lemma FailuresPerInterval(o: Options, lock: Option<nat>, times: seq<nat>, from: nat)
    requires o.threshold >= 1 && LockOutlastsWindow(o) && Ordered(times)
    ensures FailuresIn(o, lock, times, from) <= MostFailures(o)
  {
    var log := Failures(o, lock, times);
    FailuresChain(o, lock, times);
    forall i, j | 0 <= i < j < |log|
      ensures Times(log)[i] <= Times(log)[j]
    {
      ChainedIsOrdered(o, log, i, j);
    }
    forall i | 0 <= i && i + MostFailures(o) < |log|
      ensures Times(log)[i] + o.windowSeconds <= Times(log)[i + MostFailures(o)]
    {
      ChainedIsSpaced(o, log, i);
    }
    SpacedIsSparse(Times(log), MostFailures(o), o.windowSeconds, from);
  }

  // ---------- the bound is met, and only long locks keep it ----------

  function Burst(n: nat, now: nat): seq<nat>
  {
    seq(n, _ => now)
  }

  /** What the window at `now` has counted already. */
  function CountSoFar(k: Keys, now: nat): nat
  {
    if Live(k.fails, now) then k.fails.value.count else 0
  }

  lemma NoScripts(o: Options, lock: Option<nat>)
    ensures KeysAfter(o, lock, []) == Keys(None, lock) && Failures(o, lock, []) == []
  {
  }

  lemma OneMoreScript(o: Options, lock: Option<nat>, times: seq<nat>, now: nat)
    requires !Locked(KeysAfter(o, lock, times), now)
    ensures KeysAfter(o, lock, times + [now]) == Script(o, KeysAfter(o, lock, times), now).0
    ensures Times(Failures(o, lock, times + [now])) == Times(Failures(o, lock, times)) + [now]
  {
    assert (times + [now])[..|times|] == times;
  }

  /** Failures in one second are all counted as long as only the last of them can lock. */
  lemma {:induction false} BurstCounts(o: Options, lock: Option<nat>, times: seq<nat>, n: nat, now: nat)
    requires n >= 1 && o.windowSeconds >= 1 && !Locked(KeysAfter(o, lock, times), now)
    requires n == 1 || CountSoFar(KeysAfter(o, lock, times), now) + n - 1 < o.threshold || o.lockSeconds == 0
    ensures var k := KeysAfter(o, lock, times);
            var after := KeysAfter(o, lock, times + Burst(n, now));
            var count := CountSoFar(k, now) + n;
            && after.fails
               == Some(Window(count, if Live(k.fails, now) then k.fails.value.until else now + o.windowSeconds))
            && after.lock == (if count >= o.threshold then Some(now + o.lockSeconds) else k.lock)
    ensures Times(Failures(o, lock, times + Burst(n, now))) == Times(Failures(o, lock, times)) + Burst(n, now)
  {
    hide KeysAfter, Failures;
    var before := times + Burst(n - 1, now);
    assert times + Burst(n, now) == before + [now] && Burst(n, now) == Burst(n - 1, now) + [now];
    if n > 1 {
      BurstCounts(o, lock, times, n - 1, now);
    } else {
      assert before == times;
    }
    OneMoreScript(o, lock, before, now);
  }

  /** One failure, then `rest` more while its window is open, then a full window of them once it is over. */
  function TwoWindows(o: Options, rest: nat, at: nat): seq<nat>
  {
    [0] + Burst(rest, at) + Burst(o.threshold, o.windowSeconds)
  }

  lemma TwoWindowsCount(o: Options, rest: nat, at: nat)
    requires o.threshold >= 2 && 1 <= at < o.windowSeconds
    requires rest + 2 == o.threshold || (rest + 1 == o.threshold && at + o.lockSeconds <= o.windowSeconds)
    ensures Ordered(TwoWindows(o, rest, at))
    ensures FailuresIn(o, None, TwoWindows(o, rest, at), at) == rest + o.threshold
  {
    hide KeysAfter, Failures;
    NoScripts(o, None);
    BurstCounts(o, None, [], 1, 0);
    assert [] + Burst(1, 0) == [0];
    var first := [0] + Burst(rest, at);
    if rest > 0 {
      BurstCounts(o, None, [0], rest, at);
    } else {
      assert first == [0] && Burst(0, at) == [];
    }
    BurstCounts(o, None, first, o.threshold, o.windowSeconds);
    CountLate(TwoWindows(o, rest, at), 1, at, at + o.windowSeconds);
  }

  /** The bound is reached. */
  lemma BoundIsMet(o: Options)
    requires o.threshold >= 2 && o.windowSeconds >= 2
    ensures exists times: seq<nat>, from: nat :: Ordered(times) && FailuresIn(o, None, times, from) == MostFailures(o)
  {
    var at := o.windowSeconds - 1;
    TwoWindowsCount(o, o.threshold - 2, at);
    assert FailuresIn(o, None, TwoWindows(o, o.threshold - 2, at), at) == MostFailures(o);
  }

  lemma TwoFailuresInOneWindow(o: Options)
    requires o.threshold == 1 && !LockOutlastsWindow(o)
    ensures Ordered([0, o.lockSeconds]) && FailuresIn(o, None, [0, o.lockSeconds], 0) == 2
  {
    hide KeysAfter, Failures;
    NoScripts(o, None);
    BurstCounts(o, None, [], 1, 0);
    assert [] + Burst(1, 0) == [0];
    BurstCounts(o, None, [0], 1, o.lockSeconds);
    assert [0] + Burst(1, o.lockSeconds) == [0, o.lockSeconds];
    CountLate([0, o.lockSeconds], 0, 0, o.windowSeconds);
  }

  lemma AnyNumberInOneSecond(o: Options, n: nat)
    requires n >= 1 && o.windowSeconds == 1 && o.lockSeconds == 0
    ensures Ordered(Burst(n, 0)) && FailuresIn(o, None, Burst(n, 0), 0) == n
  {
    hide KeysAfter, Failures;
    NoScripts(o, None);
    BurstCounts(o, None, [], n, 0);
    assert [] + Burst(n, 0) == Burst(n, 0);
    CountLate(Burst(n, 0), 0, 0, 1);
  }

  /** A lock that ends before the window can break the bound, whatever the numbers. */
  lemma ShortLocksBreakTheBound(o: Options) returns (times: seq<nat>, from: nat)
    requires o.threshold >= 1 && !LockOutlastsWindow(o)
    ensures Ordered(times) && FailuresIn(o, None, times, from) > MostFailures(o)
  {
    hide Ordered, FailuresIn;
    if o.threshold == 1 {
      TwoFailuresInOneWindow(o);
      times, from := [0, o.lockSeconds], 0;
    } else if o.windowSeconds == 1 {
      AnyNumberInOneSecond(o, MostFailures(o) + 1);
      times, from := Burst(MostFailures(o) + 1, 0), 0;
    } else {
      TwoWindowsCount(o, o.threshold - 1, 1);
      times, from := TwoWindows(o, o.threshold - 1, 1), 1;
    }
  }

  /**
   No stretch of a run without a reset has more than `MostFailures` counted failures in a window's length
   exactly when locks outlast windows.
   */
  lemma BoundHoldsIff(o: Options)
    requires o.threshold >= 1
    ensures LockOutlastsWindow(o) <==>
            forall lock: Option<nat>, times: seq<nat>, from: nat :: Ordered(times) ==>
              FailuresIn(o, lock, times, from) <= MostFailures(o)
  {
    if LockOutlastsWindow(o) {
      forall lock: Option<nat>, times: seq<nat>, from: nat | Ordered(times)
        ensures FailuresIn(o, lock, times, from) <= MostFailures(o)
      {
        FailuresPerInterval(o, lock, times, from);
      }
    } else {
      var times, from := ShortLocksBreakTheBound(o);
      assert Ordered(times);
    }
  }

  // ---------- the decorator ----------

  /**
   How a call of the guarded method ended, with what `failurePredicate` says of the result or the error.
   `delError` is the error of a DEL that fails, by whether it counts.
   */
  datatype Ending = Result(counts: bool, delError: Option<bool>) | Error(counts: bool)

  datatype Reply = Returned | Rethrown | TooMany(retryAfter: int)

  class Guarded {
    const options: Options
    // whether `failurePredicate` counts the decorator's own refusal
    const ownErrorCounts: bool
    var fails: Option<Window>
    var lock: Option<nat>
    // the scripts run since failures were last forgotten, and the lock there was then
    ghost var lockAtReset: Option<nat>
    ghost var scripts: seq<nat>

    constructor (options: Options, ownErrorCounts: bool)
      ensures Valid() && this.options == options && this.ownErrorCounts == ownErrorCounts && Both() == NO_KEYS
    {
      this.options, this.ownErrorCounts := options, ownErrorCounts;
      fails, lock, lockAtReset, scripts := None, None, None, [];
    }

    function Both(): Keys
      reads this
    {
      Keys(fails, lock)
    }

    ghost predicate Valid()
      reads this
    {
      Ordered(scripts) && Both() == KeysAfter(options, lockAtReset, scripts)
    }

    /** No script has run after `now`. */
    ghost predicate Reached(now: nat)
      reads this
    {
      forall i :: 0 <= i < |scripts| ==> scripts[i] <= now
    }

    /** The script, command by command; nothing runs between them. */
    method RunScript(now: nat) returns (status: Status)
      requires Valid() && Reached(now)
      modifies this
      ensures Valid() && scripts == old(scripts) + [now] && lockAtReset == old(lockAtReset)
      ensures (Both(), status) == Script(options, old(Both()), now)
    {
      hide KeysAfter;
      ghost var before := Both();
      NextKeys(options, lockAtReset, scripts, now);
      scripts := scripts + [now];
      if lock.Some? && lock.value > now {
        return OldLock(lock.value - now);
      }
      if fails.Some? && now < fails.value.until {
        fails := Some(Window(fails.value.count + 1, fails.value.until));
      } else {
        fails := Some(Window(1, now + options.windowSeconds));
      }
      if fails.value.count >= options.threshold {
        lock := Some(now + options.lockSeconds);
        return NewLock(options.lockSeconds);
      }
      status := Counted(fails.value.count);
    }

    /** The look at the lock before the guarded method. */
    method Enter(now: nat) returns (refused: Option<Reply>)
      ensures refused.Some? <==> Locked(Both(), now)
      ensures refused.Some? ==> refused == Some(TooMany(lock.value - now)) && lock.value - now > 0
    {
      refused := if lock.Some? && lock.value > now then Some(TooMany(lock.value - now)) else None;
    }

    /** The `catch` block: an error that counts goes through the script, which may replace it by a refusal. */
    method Catch(thrown: Reply, counts: bool, now: nat) returns (r: Reply)
      requires Valid() && Reached(now)
      modifies this
      ensures Valid() && Reached(now) && lockAtReset == old(lockAtReset)
      ensures scripts == old(scripts) + (if counts then [now] else [])
      ensures !counts ==> r == thrown && Both() == old(Both())
      ensures counts ==>
                var (keys, status) := Script(options, old(Both()), now);
                Both() == keys && r == Answer(status, thrown)
    {
      hide KeysAfter;
      r := thrown;
      if counts {
        var status := RunScript(now);
        match status {
          case OldLock(ttl) => r := TooMany(ttl);
          case NewLock(seconds) => r := TooMany(seconds);
          case Counted(_) =>
        }
      }
    }

    /** A failure without a lock: one more in the open window, or the first of a new one; at the threshold, the lock. */
    twostate predicate FailureCounted(r: Reply, otherwise: Reply, now: nat)
      reads this
    {
      var open := old(fails).Some? && now < old(fails).value.until;
      var count := if open then old(fails).value.count + 1 else 1;
      && fails == Some(Window(count, if open then old(fails).value.until else now + options.windowSeconds))
      && if count >= options.threshold
         then r == TooMany(options.lockSeconds) && lock == Some(now + options.lockSeconds)
         else r == otherwise && lock == old(lock)
    }

    /**
     What follows the guarded method. A result that counts is a failure like an error; its refusal is thrown
     inside the `try` and may be counted once more. Any other result forgets the failures.
     */
    method Leave(ending: Ending, now: nat) returns (r: Reply)
      requires Valid() && Reached(now)
      modifies this
      ensures Valid() && Reached(now)
      ensures ending == Result(false, None) ==>
                r.Returned? && Both() == old(Both()).(fails := None) && scripts == [] && lockAtReset == old(lock)
      ensures ending != Result(false, None) ==>
                && lockAtReset == old(lockAtReset)
                && scripts == old(scripts) + Scripts(options, ownErrorCounts, ending, old(Both()), now)
                && (r.TooMany? <==> CountsAsFailure(ending) && !Script(options, old(Both()), now).1.Counted?)
                && (!r.TooMany? ==> r == if ending.Result? && ending.counts then Returned else Rethrown)
      ensures r.TooMany? && options.lockSeconds > 0 ==> Locked(Both(), now) && now + r.retryAfter == lock.value
      // the endings one by one: two change nothing, one forgets, all others are failures
      ensures ending == Error(false) || ending == Result(false, Some(false)) ==>
                r == Rethrown && Both() == old(Both()) && scripts == old(scripts)
      ensures ending == Result(false, None) ==> r == Returned && lock == old(lock) && fails == None
      ensures ending != Error(false) && ending != Result(false, Some(false)) && ending != Result(false, None) ==>
                && old(scripts) + [now] <= scripts
                && (old(lock).Some? && now < old(lock).value ==>
                      r == TooMany(old(lock).value - now) && Both() == old(Both()))
                && ((old(lock).Some? ==> old(lock).value <= now) && options.lockSeconds > 0 ==>
                      FailureCounted(r, if ending == Error(true) || !ending.counts then Rethrown else Returned, now))
    {
      hide KeysAfter;
      match ending {
        case Result(counts, delError) =>
          if counts {
            var status := RunScript(now);
            r := Answer(status, Returned);
            if r.TooMany? {
              r := Catch(r, ownErrorCounts, now);
            }
          } else if delError.Some? {
            r := Catch(Rethrown, delError.value, now);
          } else {
            fails := None;
            lockAtReset, scripts := lock, [];
            NoScripts(options, lock);
            r := Returned;
          }
        case Error(counts) =>
          r := Catch(Rethrown, counts, now);
      }
    }

    /** A whole call with nothing in between: the lock turns it away, or it ends in its own way. */
    method Call(ending: Ending, now: nat, later: nat) returns (r: Reply)
      requires Valid() && Reached(now) && now <= later
      modifies this
      ensures Valid()
      ensures Locked(old(Both()), now) ==> r == TooMany(old(lock).value - now) && Both() == old(Both())
      ensures !Locked(old(Both()), now) && CountsAsFailure(ending) ==>
                && (r.TooMany? <==> Script(options, old(Both()), later).1.NewLock?)
                && later in scripts
      // without a lock, ending by ending
      ensures old(lock).Some? && now < old(lock).value ==> r == TooMany(old(lock).value - now)
      ensures !(old(lock).Some? && now < old(lock).value) ==>
                if ending == Error(false) || ending == Result(false, Some(false))
                then r == Rethrown && Both() == old(Both())
                else if ending == Result(false, None) then r == Returned && lock == old(lock) && fails == None
                else options.lockSeconds > 0 ==>
                  FailureCounted(r, if ending == Error(true) || !ending.counts then Rethrown else Returned, later)
      ensures Reached(later)
    {
      var refused := Enter(now);
      if refused.Some? {
        return refused.value;
      }
      r := Leave(ending, later);
    }

    /** The bound on runs is a bound on the failures this object has counted since it last forgot them. */
    lemma KeepsBound(from: nat)
      requires Valid() && options.threshold >= 1 && LockOutlastsWindow(options)
      ensures FailuresIn(options, lockAtReset, scripts, from) <= MostFailures(options)
    {
      FailuresPerInterval(options, lockAtReset, scripts, from);
    }
  }

  /** How many failures it takes. */
  function Enough(o: Options): nat
  {
    if o.threshold == 0 then 1 else o.threshold
  }

  /**
   What a user can rely on: from no keys, as many failing calls as the threshold within one window set the lock, the
   last of them is refused, and so is every call after it until the lock ends, however it would have ended.
   */
  method KeepTrying(g: Guarded, endings: seq<Ending>, times: seq<nat>) returns (replies: seq<Reply>)
    requires g.Valid() && g.Both() == NO_KEYS && g.options.lockSeconds > 0
    requires Ordered(times) && |endings| == |times| >= Enough(g.options) && g.Reached(times[0])
    requires var n := Enough(g.options);
             && times[n - 1] < times[0] + g.options.windowSeconds
             && (forall i :: 0 <= i < n ==> endings[i] == Error(true))
             && (forall i :: n <= i < |times| ==> times[i] < times[n - 1] + g.options.lockSeconds)
    modifies g
    ensures var n := Enough(g.options);
            && g.lock == Some(times[n - 1] + g.options.lockSeconds) && |replies| == |times|
            && (forall i :: 0 <= i < n - 1 ==> replies[i] == Rethrown)
            && (forall i :: n - 1 <= i < |times| ==>
                  replies[i] == TooMany(times[n - 1] + g.options.lockSeconds - times[i]))
  {
    var n := Enough(g.options);
    replies := [];
    for i := 0 to |times|
      invariant g.Valid() && |replies| == i && (i < |times| ==> g.Reached(times[i]))
      invariant i == 0 ==> g.Both() == NO_KEYS
      invariant 0 < i ==> g.fails == Some(Window(if i < n then i else n, times[0] + g.options.windowSeconds))
      invariant g.lock == if i < n then None else Some(times[n - 1] + g.options.lockSeconds)
      invariant forall j :: 0 <= j < i && j < n - 1 ==> replies[j] == Rethrown
      invariant forall j :: n - 1 <= j < i ==>
                  replies[j] == TooMany(times[n - 1] + g.options.lockSeconds - times[j])
    {
      var reply := g.Call(endings[i], times[i], times[i]);
      replies := replies + [reply];
    }
  }

  predicate CountsAsFailure(ending: Ending)
  {
    ending.counts || (ending.Result? && ending.delError == Some(true))
  }

  /** The reply a script's status turns `otherwise` into. */
  function Answer(status: Status, otherwise: Reply): Reply
  {
    match status
    case OldLock(ttl) => TooMany(ttl)
    case NewLock(seconds) => TooMany(seconds)
    case Counted(_) => otherwise
  }

  /** When an ending runs the script: once if it counts, and again for a refusal that counts itself. */
  function Scripts(o: Options, ownErrorCounts: bool, ending: Ending, k: Keys, now: nat): seq<nat>
  {
    if !CountsAsFailure(ending) then []
    else if ending.Result? && ending.counts && !Script(o, k, now).1.Counted? && ownErrorCounts then [now, now]
    else [now]
  }

  lemma NextKeys(o: Options, lock: Option<nat>, times: seq<nat>, now: nat)
    ensures KeysAfter(o, lock, times + [now]) == Script(o, KeysAfter(o, lock, times), now).0
  {
    assert (times + [now])[..|times|] == times;
  }
}
