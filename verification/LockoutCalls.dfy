/**
 Overlapping calls of a method behind the lockout decorator, all of them failing. Looking at the lock,
 starting the method and counting the failure are separate steps of each call.
 */
module LockoutCalls {
  import opened Wrappers
  import opened ExpiringCounter
  import opened Lockout

  type CallId = nat

  /**
   Calls that have found no lock, that are in the method, and that were refused. `reached` holds every
   call that ever got to the method, `started` those since the current fail window opened.
   */
  datatype State = State(keys: Keys, clock: nat, cleared: set<CallId>, running: set<CallId>,
                         refused: set<CallId>, reached: set<CallId>, started: set<CallId>)

  datatype Step = Wait(seconds: nat) | Check(c: CallId) | Begin(c: CallId) | Fail(c: CallId)

  /** Whether a script opened a fail window. */
  predicate Opens(after: (Keys, Status))
  {
    !after.1.OldLock? && after.0.fails.Some? && after.0.fails.value.count == 1
  }

  /** At most `overlap` calls are past the look at the lock and not over. */
  function Next(o: Options, overlap: nat, s: State, step: Step): Option<State>
  {
    match step
    case Wait(seconds) => Some(s.(clock := s.clock + seconds))
    case Check(c) =>
      if c in s.cleared || c in s.refused || c in s.reached || |s.cleared| + |s.running| >= overlap then None
      else if Locked(s.keys, s.clock) then Some(s.(refused := s.refused + {c}))
      else Some(s.(cleared := s.cleared + {c}))
    case Begin(c) =>
      if c !in s.cleared then None
      else Some(s.(cleared := s.cleared - {c}, running := s.running + {c},
                   reached := s.reached + {c}, started := s.started + {c}))
    case Fail(c) =>
      if c !in s.running then None
      else
        var after := Script(o, s.keys, s.clock);
        Some(s.(keys := after.0, running := s.running - {c},
                started := if Opens(after) then {} else s.started))
  }

  function Begun(): State
  {
    State(NO_KEYS, 0, {}, {}, {}, {}, {})
  }

  datatype Run = Run(states: seq<State>, steps: seq<Step>)

  predicate IsRun(o: Options, overlap: nat, r: Run)
  {
    && |r.states| == |r.steps| + 1
    && r.states[0] == Begun()
    && forall i :: 0 <= i < |r.steps| ==> Next(o, overlap, r.states[i], r.steps[i]) == Some(r.states[i + 1])
  }

  /** A call is in one place at a time, and only those that found no lock get to the method. */
  predicate CallsOk(overlap: nat, s: State)
  {
    && (forall c :: c in s.cleared ==> c !in s.reached)
    && (forall c :: c in s.running ==> c in s.reached)
    && (forall c :: c in s.refused ==> c !in s.reached && c !in s.cleared)
    && |s.cleared| + |s.running| <= overlap
  }

  predicate KeysOk(o: Options, s: State)
  {
    && (s.keys.fails.Some? ==> s.keys.fails.value.count >= 1)
    && (Locked(s.keys, s.clock) ==> s.keys.fails.Some? && s.keys.fails.value.count >= o.threshold)
    && (LockOutlastsWindow(o) && s.keys.fails.Some? ==>
          && s.keys.fails.value.count <= o.threshold
          && s.keys.fails.value.until <= s.clock + o.windowSeconds
          && (s.keys.fails.value.count == o.threshold ==>
                s.keys.lock.Some? && s.keys.fails.value.until <= s.keys.lock.value))
  }

  /** Until the window fills up, every start but those still running has been counted; then nothing more starts. */
  predicate StartsOk(o: Options, overlap: nat, s: State)
  {
    s.keys.fails.Some? ==>
      var count := s.keys.fails.value.count;
      && (count < o.threshold ==> |s.started| <= count - 1 + |s.running|)
      && (count == o.threshold && Locked(s.keys, s.clock) ==> |s.started| + |s.cleared| <= o.threshold - 2 + overlap)
  }

  predicate Inv(o: Options, overlap: nat, s: State)
  {
    CallsOk(overlap, s) && KeysOk(o, s) && StartsOk(o, overlap, s)
  }

  lemma CallsKeep(o: Options, overlap: nat, s: State, step: Step)
    requires CallsOk(overlap, s) && Next(o, overlap, s, step).Some?
    ensures CallsOk(overlap, Next(o, overlap, s, step).value)
  {
    hide Script, Opens, Locked;
  }

  lemma KeysKeep(o: Options, overlap: nat, s: State, step: Step)
    requires o.threshold >= 1 && KeysOk(o, s) && Next(o, overlap, s, step).Some?
    ensures KeysOk(o, Next(o, overlap, s, step).value)
  {
  }

  lemma FailKeepsStarts(o: Options, overlap: nat, s: State, c: CallId)
    requires o.threshold >= 1 && Inv(o, overlap, s) && Next(o, overlap, s, Fail(c)).Some?
    ensures StartsOk(o, overlap, Next(o, overlap, s, Fail(c)).value)
  {
    assert |s.running - {c}| == |s.running| - 1;
  }

  lemma StartsKeep(o: Options, overlap: nat, s: State, step: Step)
    requires o.threshold >= 1 && Inv(o, overlap, s) && Next(o, overlap, s, step).Some?
    ensures StartsOk(o, overlap, Next(o, overlap, s, step).value)
  {
    match step {
      case Fail(c) => FailKeepsStarts(o, overlap, s, c);
      case _ => hide Script, Opens;
    }
  }

  lemma StepKeeps(o: Options, overlap: nat, s: State, step: Step)
    requires o.threshold >= 1 && Inv(o, overlap, s) && Next(o, overlap, s, step).Some?
    ensures Inv(o, overlap, Next(o, overlap, s, step).value)
  {
    hide Next, CallsOk, KeysOk, StartsOk;
    CallsKeep(o, overlap, s, step);
    KeysKeep(o, overlap, s, step);
    StartsKeep(o, overlap, s, step);
  }

  lemma {:induction false} RunOk(o: Options, overlap: nat, r: Run, i: nat)
    requires o.threshold >= 1 && IsRun(o, overlap, r) && i < |r.states|
    ensures Inv(o, overlap, r.states[i])
  {
    hide Inv, Next;
    if i > 0 {
      RunOk(o, overlap, r, i - 1);
      assert Next(o, overlap, r.states[i - 1], r.steps[i - 1]) == Some(r.states[i]);
      StepKeeps(o, overlap, r.states[i - 1], r.steps[i - 1]);
    } else {
      NothingYet(o, overlap);
    }
  }

  lemma NothingYet(o: Options, overlap: nat)
    ensures Inv(o, overlap, Begun())
  {
  }

  /** From the opening of a fail window, while it has not filled up or the lock it then sets is on. */
  predicate Guarding(o: Options, s: State)
  {
    s.keys.fails.Some? &&
    (|| s.keys.fails.value.count < o.threshold
     || (s.keys.fails.value.count == o.threshold && Locked(s.keys, s.clock)))
  }

  /**
   Between the opening of a fail window and the end of the lock it triggers, at most
   `threshold - 2 + overlap` calls start the guarded method.
   */
  lemma StartsPerLock(o: Options, overlap: nat, r: Run, i: nat)
    requires o.threshold >= 1 && IsRun(o, overlap, r) && i < |r.states| && Guarding(o, r.states[i])
    ensures |r.states[i].started| <= o.threshold - 2 + overlap
  {
    RunOk(o, overlap, r, i);
  }

  /** With a lock that outlasts the window, there is no other kind of lock than the one just bounded. */
  lemma EveryLockGuards(o: Options, overlap: nat, r: Run, i: nat)
    requires o.threshold >= 1 && LockOutlastsWindow(o) && IsRun(o, overlap, r) && i < |r.states|
    requires Locked(r.states[i].keys, r.states[i].clock)
    ensures Guarding(o, r.states[i])
  {
    RunOk(o, overlap, r, i);
  }

  /** A call that finds the lock on never gets to the method, however long the run goes on. */
  lemma {:induction false} RefusedNeverReach(o: Options, overlap: nat, r: Run, i: nat, j: nat, c: CallId)
    requires o.threshold >= 1 && IsRun(o, overlap, r) && i < j < |r.states|
    requires r.steps[i] == Check(c) && Locked(r.states[i].keys, r.states[i].clock)
    ensures c in r.states[j].refused && c !in r.states[j].reached
  {
    assert Next(o, overlap, r.states[j - 1], r.steps[j - 1]) == Some(r.states[j]);
    if i < j - 1 {
      RefusedNeverReach(o, overlap, r, i, j - 1, c);
    }
    RunOk(o, overlap, r, j);
  }

  // ---------- the bound is met ----------

  function Ids(from: nat, to: nat): (ids: set<CallId>)
    ensures forall c :: c in ids <==> from <= c < to
    ensures |ids| == if from <= to then to - from else 0
  {
    if from < to then Ids(from, to - 1) + {to - 1} else {}
  }

  lemma OneMoreStep(o: Options, overlap: nat, r: Run, step: Step) returns (q: Run)
    requires IsRun(o, overlap, r) && Next(o, overlap, r.states[|r.steps|], step).Some?
    ensures IsRun(o, overlap, q) && q.states[|q.steps|] == Next(o, overlap, r.states[|r.steps|], step).value
  {
    q := Run(r.states + [Next(o, overlap, r.states[|r.steps|], step).value], r.steps + [step]);
    forall i | 0 <= i < |q.steps|
      ensures Next(o, overlap, q.states[i], q.steps[i]) == Some(q.states[i + 1])
    {
      if i < |r.steps| {
        assert q.states[i] == r.states[i] && q.states[i + 1] == r.states[i + 1] && q.steps[i] == r.steps[i];
      }
    }
  }

  /** A new call finds no lock and gets into the method. */
  lemma GetsIn(o: Options, overlap: nat, r: Run, c: CallId) returns (q: Run)
    requires IsRun(o, overlap, r)
    requires var s := r.states[|r.steps|];
             s.cleared == {} && |s.running| < overlap && c !in s.refused && c !in s.reached && !Locked(s.keys, s.clock)
    ensures IsRun(o, overlap, q)
    ensures var s := r.states[|r.steps|];
            q.states[|q.steps|]
            == s.(running := s.running + {c}, reached := s.reached + {c}, started := s.started + {c})
  {
    hide IsRun;
    q := OneMoreStep(o, overlap, r, Check(c));
    q := OneMoreStep(o, overlap, q, Begin(c));
    assert q.states[|q.steps|].cleared == {};
  }

  /** Calls 0 to `n` have failed one after the other, call 0 opening the window. */
  function Alone(o: Options, n: nat): State
  {
    State(Keys(Some(Window(n + 1, o.windowSeconds)), None), 0, {}, {}, {}, Ids(0, n + 1), Ids(1, n + 1))
  }

  lemma {:induction false} OneByOne(o: Options, overlap: nat, n: nat) returns (r: Run)
    requires overlap >= 1 && o.windowSeconds >= 1 && n + 1 < o.threshold
    ensures IsRun(o, overlap, r) && r.states[|r.steps|] == Alone(o, n)
  {
    hide IsRun;
    if n == 0 {
      r := Run([Begun()], []);
      assert IsRun(o, overlap, r) by { NoSteps(o, overlap); }
    } else {
      r := OneByOne(o, overlap, n - 1);
    }
    r := GetsIn(o, overlap, r, n);
    r := OneMoreStep(o, overlap, r, Fail(n));
    assert r.states[|r.steps|].running == {};
  }

  lemma NoSteps(o: Options, overlap: nat)
    ensures IsRun(o, overlap, Run([Begun()], []))
  {
  }

  function Crowd(o: Options, n: nat, m: nat): State
  {
    Alone(o, n).(running := Ids(n + 1, n + 1 + m), reached := Ids(0, n + 1 + m), started := Ids(1, n + 1 + m))
  }

  lemma CrowdOfNone(o: Options, n: nat)
    ensures Crowd(o, n, 0) == Alone(o, n)
  {
  }

  lemma CrowdGrows(o: Options, n: nat, m: nat)
    requires m > 0
    ensures var s, c := Crowd(o, n, m - 1), n + m;
            && Crowd(o, n, m) == s.(running := s.running + {c}, reached := s.reached + {c}, started := s.started + {c})
            && s.cleared == {} && |s.running| == m - 1 && c !in s.refused && c !in s.reached && !Locked(s.keys, s.clock)
  {
    assert Ids(n + 1, n + 1 + m) == Ids(n + 1, n + m) + {n + m};
    assert Ids(0, n + 1 + m) == Ids(0, n + m) + {n + m};
    assert Ids(1, n + 1 + m) == Ids(1, n + m) + {n + m};
  }

  /** Then `m` more calls get into the method together. */
  lemma {:induction false} Together(o: Options, overlap: nat, n: nat, m: nat) returns (r: Run)
    requires overlap >= 1 && o.windowSeconds >= 1 && n + 1 < o.threshold && m <= overlap
    ensures IsRun(o, overlap, r) && r.states[|r.steps|] == Crowd(o, n, m)
  {
    hide IsRun, Crowd, Alone, Locked;
    if m == 0 {
      CrowdOfNone(o, n);
      r := OneByOne(o, overlap, n);
    } else {
      CrowdGrows(o, n, m);
      r := Together(o, overlap, n, m - 1);
      r := GetsIn(o, overlap, r, n + m);
    }
  }

  /** One of them fails, and the lock is on. */
  lemma LastFailure(o: Options, overlap: nat)
    requires o.threshold >= 2 && o.windowSeconds >= 1 && o.lockSeconds >= 1 && overlap >= 1
    ensures var n := o.threshold - 2;
            var next := Next(o, overlap, Crowd(o, n, overlap), Fail(n + 1));
            && next.Some? && Guarding(o, next.value) && Locked(next.value.keys, next.value.clock)
            && |next.value.started| == o.threshold - 2 + overlap
  {
  }

  /** Exactly as many starts as the bound allows, while the lock is on. */
  lemma BoundIsMet(o: Options, overlap: nat) returns (r: Run)
    requires o.threshold >= 2 && o.windowSeconds >= 1 && o.lockSeconds >= 1 && overlap >= 1
    ensures IsRun(o, overlap, r)
    ensures var s := r.states[|r.steps|];
            Guarding(o, s) && Locked(s.keys, s.clock) && |s.started| == o.threshold - 2 + overlap
  {
    hide IsRun, Crowd, Next, Guarding, Locked;
    r := Together(o, overlap, o.threshold - 2, overlap);
    LastFailure(o, overlap);
    r := OneMoreStep(o, overlap, r, Fail(o.threshold - 1));
  }
}
