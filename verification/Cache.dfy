/**
 The caching decorator: look in the cache, take a lock or poll, compute, store, let the lock go. Each
 command is one step, the callers interleave in any way, and a lock can run out or be deleted under its
 owner. Times are in milliseconds.
 */
module Cache {
  import opened Wrappers

  type Args = nat
  type CacheKey = nat
  type LockKey = nat
  type Value = nat
  type CallId = nat

  datatype Options = Options(ttlSeconds: nat, lockTtlSeconds: nat, keyOf: Args -> CacheKey, lockOf: Args -> LockKey)

  const POLLS := 5
  const POLL_MS := 200

  /** A result of the original method: for which cache key, and when it came out. */
  datatype Product = Product(key: CacheKey, value: Value, madeAt: nat)

  datatype Entry = Entry(product: Product, storedAt: nat)

  /** Where a returned value came from. */
  datatype Source = Computed | Cached(storedAt: nat, readAt: nat)

  datatype Pc =
    | Reading | Locking
    // with the lock
    | Owning(lockedAt: nat) | Storing(lockedAt: nat, product: Product)
    | Releasing(lockedAt: nat, result: Option<Product>)
    // without it
    | Polling(triedAt: nat, polls: nat, wakeAt: nat) | Computing(triedAt: nat)
    | Returned(product: Product, source: Source) | Threw

  /** `runs` counts the caller's runs of the original method. */
  datatype Caller = Caller(args: Args, pc: Pc, runs: nat)

  /** `products` is everything the original method has ever produced. */
  datatype State = State(entries: map<CacheKey, Entry>, locks: map<LockKey, nat>, clock: nat,
                         callers: map<CallId, Caller>, products: set<Product>)

  datatype Step =
    | Wait(ms: nat)
    | Arrive(c: CallId, args: Args)
    | Read(c: CallId)
    | Lock(c: CallId)
    | RunOriginal(c: CallId, result: Option<Value>)
    | Store(c: CallId, ok: bool)
    | Release(c: CallId, ok: bool)
    | Poll(c: CallId)
    | Fail(c: CallId)            // a Redis command of the caller fails
    | EvictEntry(k: CacheKey)    // Redis, or anyone else, deletes a key
    | EvictLock(l: LockKey)

  predicate LiveEntry(o: Options, s: State, k: CacheKey)
  {
    k in s.entries && s.clock < s.entries[k].storedAt + 1000 * o.ttlSeconds
  }

  predicate LiveLock(s: State, l: LockKey)
  {
    l in s.locks && s.clock < s.locks[l]
  }

  function Put(s: State, c: CallId, x: Caller): State
  {
    s.(callers := s.callers[c := x])
  }

  function FromCache(s: State, k: CacheKey): Pc
    requires k in s.entries
  {
    Returned(s.entries[k].product, Cached(s.entries[k].storedAt, s.clock))
  }

  function CallerStep(o: Options, s: State, c: CallId, step: Step): Option<State>
    requires c in s.callers
  {
    var x := s.callers[c];
    var k := o.keyOf(x.args);
    var l := o.lockOf(x.args);
    match step
    case Read(_) =>
      if !x.pc.Reading? then None
      else Some(Put(s, c, x.(pc := if LiveEntry(o, s, k) then FromCache(s, k) else Locking)))
    case Lock(_) =>
      if !x.pc.Locking? then None
      else if LiveLock(s, l) then Some(Put(s, c, x.(pc := Polling(s.clock, 0, s.clock + POLL_MS))))
      else Some(Put(s.(locks := s.locks[l := s.clock + 1000 * o.lockTtlSeconds]), c, x.(pc := Owning(s.clock))))
    case RunOriginal(_, result) =>
      if !x.pc.Owning? && !x.pc.Computing? then None
      else if result.None? then
        Some(Put(s, c, x.(runs := x.runs + 1, pc := if x.pc.Owning? then Releasing(x.pc.lockedAt, None) else Threw)))
      else
        var product := Product(k, result.value, s.clock);
        Some(Put(s.(products := s.products + {product}), c,
                 x.(runs := x.runs + 1,
                    pc := if x.pc.Owning? then Storing(x.pc.lockedAt, product) else Returned(product, Computed))))
    case Store(_, ok) =>
      if !x.pc.Storing? then None
      else if !ok then Some(Put(s, c, x.(pc := Releasing(x.pc.lockedAt, None))))
      else Some(Put(s.(entries := s.entries[k := Entry(x.pc.product, s.clock)]), c,
                    x.(pc := Releasing(x.pc.lockedAt, Some(x.pc.product)))))
    case Release(_, ok) =>
      // whoever holds the lock by now
      if !x.pc.Releasing? then None
      else if !ok then Some(Put(s, c, x.(pc := Threw)))
      else Some(Put(s.(locks := s.locks - {l}), c,
                    x.(pc := if x.pc.result.Some? then Returned(x.pc.result.value, Computed) else Threw)))
    case Poll(_) =>
      if !x.pc.Polling? || s.clock < x.pc.wakeAt then None
      else if LiveEntry(o, s, k) then Some(Put(s, c, x.(pc := FromCache(s, k))))
      else if x.pc.polls + 1 < POLLS
      then Some(Put(s, c, x.(pc := Polling(x.pc.triedAt, x.pc.polls + 1, s.clock + POLL_MS))))
      else Some(Put(s, c, x.(pc := Computing(x.pc.triedAt))))
    case Fail(_) =>
      if x.pc.Reading? || x.pc.Locking? || x.pc.Polling? then Some(Put(s, c, x.(pc := Threw))) else None
    case _ => None
  }

  function Next(o: Options, s: State, step: Step): Option<State>
  {
    match step
    case Wait(ms) => Some(s.(clock := s.clock + ms))
    case Arrive(c, args) => if c in s.callers then None else Some(Put(s, c, Caller(args, Reading, 0)))
    case EvictEntry(k) => Some(s.(entries := s.entries - {k}))
    case EvictLock(l) => Some(s.(locks := s.locks - {l}))
    case _ => if step.c in s.callers then CallerStep(o, s, step.c, step) else None
  }

  function Begun(): State
  {
    State(map[], map[], 0, map[], {})
  }

  datatype Run = Run(states: seq<State>, steps: seq<Step>)

  predicate IsRun(o: Options, r: Run)
  {
    && |r.states| == |r.steps| + 1
    && r.states[0] == Begun()
    && forall i :: 0 <= i < |r.steps| ==> Next(o, r.states[i], r.steps[i]) == Some(r.states[i + 1])
  }

  // ---------- genuine results ----------

  /** Produced by the original method for this cache key. */
  predicate Genuine(s: State, product: Product, k: CacheKey)
  {
    product in s.products && product.key == k && product.madeAt <= s.clock
  }

  predicate SourceOk(o: Options, s: State, source: Source)
  {
    source.Cached? ==>
      source.storedAt <= source.readAt <= s.clock && source.readAt < source.storedAt + 1000 * o.ttlSeconds
  }

  /** How often the original method has run for a caller that has got this far. */
  predicate RunsOk(x: Caller)
  {
    match x.pc
    case Reading | Locking | Owning(_) | Polling(_, _, _) | Computing(_) => x.runs == 0
    case Storing(_, _) | Releasing(_, _) => x.runs == 1
    case Returned(_, source) => x.runs == if source.Cached? then 0 else 1
    case Threw => x.runs <= 1
  }

  predicate CallerOk(o: Options, s: State, x: Caller)
  {
    && RunsOk(x)
    && match x.pc
       case Storing(_, product) => Genuine(s, product, o.keyOf(x.args))
       case Releasing(_, result) => result.Some? ==> Genuine(s, result.value, o.keyOf(x.args))
       case Returned(product, source) => Genuine(s, product, o.keyOf(x.args)) && SourceOk(o, s, source)
       case Polling(triedAt, polls, wakeAt) => polls < POLLS && triedAt + (polls + 1) * POLL_MS <= wakeAt
       case Computing(triedAt) => triedAt + POLLS * POLL_MS <= s.clock
       case _ => true
  }

  predicate EntryOk(s: State, k: CacheKey)
    requires k in s.entries
  {
    Genuine(s, s.entries[k].product, k) && s.entries[k].product.madeAt <= s.entries[k].storedAt <= s.clock
  }

  predicate Inv(o: Options, s: State)
  {
    && (forall k :: k in s.entries ==> EntryOk(s, k))
    && (forall c :: c in s.callers ==> CallerOk(o, s, s.callers[c]))
  }

  /** Time and new products take nothing away. */
  lemma StaysOk(o: Options, s: State, t: State, x: Caller)
    requires CallerOk(o, s, x) && s.clock <= t.clock && s.products <= t.products
    ensures CallerOk(o, t, x)
  {
  }

  lemma EntriesOk(o: Options, s: State, c: CallId, step: Step)
    requires Inv(o, s) && c in s.callers && CallerStep(o, s, c, step).Some?
    ensures var t := CallerStep(o, s, c, step).value;
            && t.clock == s.clock && s.products <= t.products && t.callers.Keys == s.callers.Keys
            && (forall d :: d in s.callers && d != c ==> t.callers[d] == s.callers[d])
            && (forall k :: k in t.entries ==> EntryOk(t, k))
  {
    hide RunsOk, SourceOk;
    assert CallerOk(o, s, s.callers[c]);
  }

  lemma MoverOk(o: Options, s: State, c: CallId, step: Step)
    requires c in s.callers && CallerOk(o, s, s.callers[c]) && CallerStep(o, s, c, step).Some?
    requires o.keyOf(s.callers[c].args) in s.entries ==> EntryOk(s, o.keyOf(s.callers[c].args))
    ensures var t := CallerStep(o, s, c, step).value;
            c in t.callers && CallerOk(o, t, t.callers[c])
  {
  }

  lemma StepKeeps(o: Options, s: State, step: Step)
    requires Inv(o, s) && Next(o, s, step).Some?
    ensures Inv(o, Next(o, s, step).value)
  {
    hide CallerOk, CallerStep, Genuine;
    var t := Next(o, s, step).value;
    match step {
      case Wait(_) => LaterOk(o, s, t);
      case Arrive(c, args) => ArrivalOk(o, s, c, args);
      case EvictEntry(_) => LaterOk(o, s, t);
      case EvictLock(_) => LaterOk(o, s, t);
      case _ =>
        EntriesOk(o, s, step.c, step);
        MoverOk(o, s, step.c, step);
        forall d | d in t.callers
          ensures CallerOk(o, t, t.callers[d])
        {
          if d != step.c {
            StaysOk(o, s, t, s.callers[d]);
          }
        }
    }
  }

  lemma ArrivalOk(o: Options, s: State, c: CallId, args: Args)
    requires Inv(o, s)
    ensures Inv(o, Put(s, c, Caller(args, Reading, 0)))
  {
  }

  lemma LaterOk(o: Options, s: State, t: State)
    requires Inv(o, s) && t.callers == s.callers && t.products == s.products && s.clock <= t.clock
    requires forall k :: k in t.entries ==> k in s.entries && t.entries[k] == s.entries[k]
    ensures Inv(o, t)
  {
    forall c | c in t.callers
      ensures CallerOk(o, t, t.callers[c])
    {
      StaysOk(o, s, t, s.callers[c]);
    }
    forall k | k in t.entries
      ensures EntryOk(t, k)
    {
      assert EntryOk(s, k);
    }
  }

  lemma {:induction false} RunOk(o: Options, r: Run, i: nat)
    requires IsRun(o, r) && i < |r.states|
    ensures Inv(o, r.states[i])
  {
    hide Next, CallerOk, EntryOk;
    if i > 0 {
      RunOk(o, r, i - 1);
      assert Next(o, r.states[i - 1], r.steps[i - 1]) == Some(r.states[i]);
      StepKeeps(o, r.states[i - 1], r.steps[i - 1]);
    }
  }

  /**
   Every value a call returns was produced by the original method for that call's cache key; one that
   came from the cache was stored less than the time to live before it was read, and cost no run; no call
   runs the original method twice.
   */
  lemma OnlyGenuineResults(o: Options, r: Run, i: nat, c: CallId)
    requires IsRun(o, r) && i < |r.states| && c in r.states[i].callers
    ensures var s := r.states[i];
            var x := s.callers[c];
            && x.runs <= 1
            && (x.pc.Returned? ==>
                  && x.pc.product in s.products && x.pc.product.key == o.keyOf(x.args)
                  && (x.pc.source.Cached? ==>
                        && x.runs == 0
                        && x.pc.source.storedAt <= x.pc.source.readAt < x.pc.source.storedAt + 1000 * o.ttlSeconds))
  {
    RunOk(o, r, i);
    assert CallerOk(o, r.states[i], r.states[i].callers[c]);
  }

  // ---------- the lock ----------

  predicate HasLock(pc: Pc)
  {
    pc.Owning? || pc.Storing? || pc.Releasing?
  }

  /** Every owner has had its lock for less than `patience` milliseconds. */
  predicate Prompt(s: State, patience: nat)
  {
    forall c :: c in s.callers && HasLock(s.callers[c].pc) ==> s.clock < s.callers[c].pc.lockedAt + patience
  }

  predicate AlwaysPrompt(r: Run, patience: nat)
  {
    forall i :: 0 <= i < |r.states| ==> Prompt(r.states[i], patience)
  }

  predicate HasLockOf(o: Options, s: State, c: CallId, l: LockKey)
  {
    c in s.callers && HasLock(s.callers[c].pc) && o.lockOf(s.callers[c].args) == l
  }

  /** Nobody but its owner deletes a lock that has one. */
  ghost predicate LeavesLocks(o: Options, s: State, step: Step)
  {
    step.EvictLock? ==> forall c :: !HasLockOf(o, s, c, step.l)
  }

  ghost predicate AlwaysLeavesLocks(o: Options, r: Run)
  {
    forall i :: 0 <= i < |r.steps| && i < |r.states| ==> LeavesLocks(o, r.states[i], r.steps[i])
  }

  /** An owner's lock is there, with the expiry the owner gave it, and nobody else has it. */
  ghost predicate Holds(o: Options, s: State, c: CallId)
    requires c in s.callers
  {
    var x := s.callers[c];
    HasLock(x.pc) ==>
      var l := o.lockOf(x.args);
      && l in s.locks && s.locks[l] == x.pc.lockedAt + 1000 * o.lockTtlSeconds
      && forall d :: HasLockOf(o, s, d, l) ==> d == c
  }

  ghost predicate LocksOk(o: Options, s: State)
  {
    forall c :: c in s.callers ==> Holds(o, s, c)
  }

  /** A step that touches no owner's lock and gives none to a caller. */
  lemma QuietKeeps(o: Options, s: State, t: State)
    requires LocksOk(o, s)
    requires forall c :: c in t.callers && HasLock(t.callers[c].pc) ==>
               && c in s.callers && HasLock(s.callers[c].pc)
               && t.callers[c].args == s.callers[c].args && t.callers[c].pc.lockedAt == s.callers[c].pc.lockedAt
               && var l := o.lockOf(t.callers[c].args);
                  l in s.locks ==> l in t.locks && t.locks[l] == s.locks[l]
    ensures LocksOk(o, t)
  {
    forall c | c in t.callers
      ensures Holds(o, t, c)
    {
      if c in s.callers {
        assert Holds(o, s, c);
        assert forall d, l :: HasLockOf(o, t, d, l) ==> HasLockOf(o, s, d, l);
      }
    }
  }

  /** An owner's lock is on. */
  lemma OwnersLockIsOn(o: Options, s: State, c: CallId, l: LockKey)
    requires LocksOk(o, s) && Prompt(s, 1000 * o.lockTtlSeconds) && HasLockOf(o, s, c, l)
    ensures LiveLock(s, l)
  {
    assert Holds(o, s, c);
  }

  /** A lock is given only when it is off, so nobody owns it. */
  lemma LockKeeps(o: Options, s: State, e: CallId)
    requires LocksOk(o, s) && Prompt(s, 1000 * o.lockTtlSeconds) && Next(o, s, Lock(e)).Some?
    ensures LocksOk(o, Next(o, s, Lock(e)).value)
  {
    var t := Next(o, s, Lock(e)).value;
    var le := o.lockOf(s.callers[e].args);
    if LiveLock(s, le) {
      QuietKeeps(o, s, t);
    } else {
      forall c | c in t.callers
        ensures Holds(o, t, c)
      {
        forall d, l | HasLockOf(o, t, d, l) && d != e
          ensures HasLockOf(o, s, d, l) && l != le
        {
          if l == le {
            OwnersLockIsOn(o, s, d, l);
          }
        }
        assert c != e ==> Holds(o, s, c);
        if c != e && HasLock(t.callers[c].pc) {
          assert HasLockOf(o, t, c, o.lockOf(t.callers[c].args));
        }
      }
    }
  }

  /** A released lock was its owner's alone. */
  lemma ReleaseKeeps(o: Options, s: State, e: CallId, ok: bool)
    requires LocksOk(o, s) && Next(o, s, Release(e, ok)).Some?
    ensures LocksOk(o, Next(o, s, Release(e, ok)).value)
  {
    var t := Next(o, s, Release(e, ok)).value;
    forall c | c in t.callers
      ensures Holds(o, t, c)
    {
      if c != e && HasLock(t.callers[c].pc) {
        var l := o.lockOf(t.callers[c].args);
        assert Holds(o, s, c) && HasLockOf(o, s, e, o.lockOf(s.callers[e].args));
        assert forall d :: HasLockOf(o, t, d, l) ==> HasLockOf(o, s, d, l);
      }
    }
  }

  lemma EvictKeeps(o: Options, s: State, l: LockKey)
    requires LocksOk(o, s) && LeavesLocks(o, s, EvictLock(l))
    ensures LocksOk(o, s.(locks := s.locks - {l}))
  {
    forall c | c in s.callers && HasLock(s.callers[c].pc)
      ensures o.lockOf(s.callers[c].args) != l
    {
      assert !HasLockOf(o, s, c, l);
    }
    QuietKeeps(o, s, s.(locks := s.locks - {l}));
  }

  lemma OthersKeepLocks(o: Options, s: State, step: Step)
    requires Next(o, s, step).Some? && !step.Lock? && !step.Release? && !step.EvictLock?
    ensures var t := Next(o, s, step).value;
            && t.locks == s.locks
            && forall c :: c in t.callers && HasLock(t.callers[c].pc) ==>
                 && c in s.callers && HasLock(s.callers[c].pc)
                 && t.callers[c].args == s.callers[c].args && t.callers[c].pc.lockedAt == s.callers[c].pc.lockedAt
  {
    hide LiveEntry, LiveLock;
  }

  lemma LockStepKeeps(o: Options, s: State, step: Step)
    requires LocksOk(o, s) && Prompt(s, 1000 * o.lockTtlSeconds) && LeavesLocks(o, s, step) && Next(o, s, step).Some?
    ensures LocksOk(o, Next(o, s, step).value)
  {
    hide LocksOk, Prompt, LeavesLocks, LiveEntry, CallerStep;
    match step {
      case Lock(e) => LockKeeps(o, s, e);
      case Release(e, ok) => ReleaseKeeps(o, s, e, ok);
      case EvictLock(l) => EvictKeeps(o, s, l);
      case _ =>
        OthersKeepLocks(o, s, step);
        QuietKeeps(o, s, Next(o, s, step).value);
    }
  }

  lemma {:induction false} LocksRun(o: Options, r: Run, i: nat)
    requires IsRun(o, r) && i < |r.states| && AlwaysLeavesLocks(o, r)
    requires AlwaysPrompt(r, 1000 * o.lockTtlSeconds)
    ensures LocksOk(o, r.states[i])
  {
    hide Next, Holds, Prompt, LeavesLocks;
    if i > 0 {
      LocksRun(o, r, i - 1);
      assert Next(o, r.states[i - 1], r.steps[i - 1]) == Some(r.states[i]);
      LockStepKeeps(o, r.states[i - 1], r.steps[i - 1]);
    }
  }

  /** No two calls hold one lock. */
  ghost predicate OneOwner(o: Options, s: State)
  {
    forall c, d, l :: HasLockOf(o, s, c, l) && HasLockOf(o, s, d, l) ==> c == d
  }

  /** While every owner finishes before its lock runs out and nobody deletes it, no two calls hold one lock. */
  lemma OneOwnerPerLock(o: Options, r: Run, i: nat)
    requires IsRun(o, r) && i < |r.states| && AlwaysLeavesLocks(o, r)
    requires AlwaysPrompt(r, 1000 * o.lockTtlSeconds)
    ensures OneOwner(o, r.states[i])
  {
    hide IsRun, AlwaysPrompt, AlwaysLeavesLocks;
    LocksRun(o, r, i);
    forall c, d, l | HasLockOf(o, r.states[i], c, l) && HasLockOf(o, r.states[i], d, l)
      ensures c == d
    {
      assert Holds(o, r.states[i], c);
    }
  }

  /** The first owner's lock has run out, or been deleted, by the time the second asks for it. */
  function Sharing(o: Options, args: Args, evict: bool): Run
  {
    var l := o.lockOf(args);
    var ms := 1000 * o.lockTtlSeconds;
    var later := if evict then 0 else ms;
    var s1 := Put(Begun(), 0, Caller(args, Reading, 0));
    var s2 := Put(s1, 0, Caller(args, Locking, 0));
    var s3 := Put(s2.(locks := s2.locks[l := ms]), 0, Caller(args, Owning(0), 0));
    var s4 := if evict then s3.(locks := s3.locks - {l}) else s3.(clock := ms);
    var s5 := Put(s4, 1, Caller(args, Reading, 0));
    var s6 := Put(s5, 1, Caller(args, Locking, 0));
    var s7 := Put(s6.(locks := s6.locks[l := later + ms]), 1, Caller(args, Owning(later), 0));
    Run([Begun(), s1, s2, s3, s4, s5, s6, s7],
        [Arrive(0, args), Read(0), Lock(0), if evict then EvictLock(l) else Wait(ms),
         Arrive(1, args), Read(1), Lock(1)])
  }

  lemma SharingBegins(o: Options, args: Args, evict: bool)
    ensures var r := Sharing(o, args, evict);
            forall i :: 0 <= i < 4 ==> Next(o, r.states[i], r.steps[i]) == Some(r.states[i + 1])
  {
    var r := Sharing(o, args, evict);
    assert Next(o, r.states[0], r.steps[0]) == Some(r.states[1]);
    assert Next(o, r.states[1], r.steps[1]) == Some(r.states[2]);
    assert Next(o, r.states[2], r.steps[2]) == Some(r.states[3]);
    assert Next(o, r.states[3], r.steps[3]) == Some(r.states[4]);
  }

  lemma SharingEnds(o: Options, args: Args, evict: bool)
    ensures var r := Sharing(o, args, evict);
            forall i :: 4 <= i < 7 ==> Next(o, r.states[i], r.steps[i]) == Some(r.states[i + 1])
  {
    var r := Sharing(o, args, evict);
    assert Next(o, r.states[4], r.steps[4]) == Some(r.states[5]);
    assert Next(o, r.states[5], r.steps[5]) == Some(r.states[6]);
    assert Next(o, r.states[6], r.steps[6]) == Some(r.states[7]);
  }

  lemma SharingIsRun(o: Options, args: Args, evict: bool)
    ensures IsRun(o, Sharing(o, args, evict))
  {
    hide Next;
    SharingBegins(o, args, evict);
    SharingEnds(o, args, evict);
  }

  lemma SharingIsPrompt(o: Options, args: Args, patience: nat, evict: bool)
    requires if evict then patience > 0 else patience > 1000 * o.lockTtlSeconds
    ensures AlwaysPrompt(Sharing(o, args, evict), patience)
    ensures !evict ==> AlwaysLeavesLocks(o, Sharing(o, args, evict))
  {
  }

  /** Owners that may take longer than the lock lasts, or whose lock may be deleted under them, can share it. */
  lemma OverstayingSharesTheLock(o: Options, args: Args, patience: nat, evict: bool)
    requires if evict then patience > 0 else patience > 1000 * o.lockTtlSeconds
    ensures var r := Sharing(o, args, evict);
            && IsRun(o, r) && AlwaysPrompt(r, patience) && (!evict ==> AlwaysLeavesLocks(o, r))
            && |r.states| == 8 && !OneOwner(o, r.states[7])
  {
    hide IsRun, AlwaysPrompt, AlwaysLeavesLocks;
    SharingIsRun(o, args, evict);
    SharingIsPrompt(o, args, patience, evict);
    var last := Sharing(o, args, evict).states[7];
    assert HasLockOf(o, last, 0, o.lockOf(args)) && HasLockOf(o, last, 1, o.lockOf(args));
  }

  /** Owners that take less than `patience` milliseconds never share a lock, whether or not others may delete it. */
  ghost predicate Exclusive(o: Options, patience: nat, evictions: bool)
  {
    forall r: Run, i: nat ::
      IsRun(o, r) && AlwaysPrompt(r, patience) && (evictions || AlwaysLeavesLocks(o, r)) && i < |r.states|
      ==> OneOwner(o, r.states[i])
  }

  predicate Ownerless(s: State)
  {
    forall c :: c in s.callers ==> !HasLock(s.callers[c].pc)
  }

  lemma OwnerlessIsFine(o: Options, s: State)
    requires Ownerless(s)
    ensures OneOwner(o, s)
  {
  }

  /** Only getting a lock makes a call an owner, and that moment is one of no patience. */
  lemma StaysOwnerless(o: Options, s: State, step: Step)
    requires Ownerless(s) && Next(o, s, step).Some? && Prompt(Next(o, s, step).value, 0)
    ensures Ownerless(Next(o, s, step).value)
  {
    hide LiveEntry, LiveLock;
  }

  /** With no patience at all no call ever gets a lock. */
  lemma {:induction false} NobodyOwns(o: Options, r: Run, i: nat)
    requires IsRun(o, r) && i < |r.states| && AlwaysPrompt(r, 0)
    ensures Ownerless(r.states[i])
  {
    if i > 0 {
      hide IsRun, Ownerless, Prompt, Next;
      NobodyOwns(o, r, i - 1);
      StepOf(o, r, i - 1);
      StaysOwnerless(o, r.states[i - 1], r.steps[i - 1]);
    }
  }

  lemma StepOf(o: Options, r: Run, i: nat)
    requires IsRun(o, r) && i + 1 < |r.states|
    ensures i < |r.steps| && Next(o, r.states[i], r.steps[i]) == Some(r.states[i + 1])
  {
  }

  /**
   A lock has one owner at a time exactly when owners always finish before it runs out and nobody deletes it
   under them (or when nobody can own one).
   */
  lemma OneOwnerIff(o: Options, patience: nat, evictions: bool)
    ensures Exclusive(o, patience, evictions) <==> patience == 0 || (patience <= 1000 * o.lockTtlSeconds && !evictions)
  {
    hide IsRun, AlwaysPrompt, AlwaysLeavesLocks, OneOwner;
    if patience == 0 {
      forall r: Run, i: nat | IsRun(o, r) && AlwaysPrompt(r, 0) && i < |r.states|
        ensures OneOwner(o, r.states[i])
      {
        NobodyOwns(o, r, i);
        OwnerlessIsFine(o, r.states[i]);
      }
    } else if patience <= 1000 * o.lockTtlSeconds && !evictions {
      forall r: Run, i: nat | IsRun(o, r) && AlwaysPrompt(r, patience) && AlwaysLeavesLocks(o, r) && i < |r.states|
        ensures OneOwner(o, r.states[i])
      {
        MorePatience(r, patience, 1000 * o.lockTtlSeconds);
        OneOwnerPerLock(o, r, i);
      }
    } else {
      OverstayingSharesTheLock(o, 0, patience, evictions);
      var r, i: nat := Sharing(o, 0, evictions), 7;
      assert !OneOwner(o, r.states[i]);
    }
  }

  lemma MorePatience(r: Run, patience: nat, more: nat)
    requires AlwaysPrompt(r, patience) && patience <= more
    ensures AlwaysPrompt(r, more)
  {
    forall i | 0 <= i < |r.states|
      ensures Prompt(r.states[i], more)
    {
      assert Prompt(r.states[i], patience);
    }
  }

  // ---------- the age of what is read ----------

  /** An owner's product was made after it got the lock; a value read was stored soon after it was made. */
  predicate Young(o: Options, s: State, patience: nat, pc: Pc)
  {
    match pc
    case Owning(lockedAt) => lockedAt <= s.clock
    case Storing(lockedAt, product) => lockedAt <= product.madeAt
    case Returned(product, source) =>
      source.Cached? ==>
        product.madeAt <= source.storedAt < product.madeAt + patience
        && source.readAt < source.storedAt + 1000 * o.ttlSeconds
    case _ => true
  }

  predicate YoungEntries(s: State, patience: nat)
  {
    forall k :: k in s.entries ==>
      s.entries[k].product.madeAt <= s.entries[k].storedAt < s.entries[k].product.madeAt + patience
  }

  predicate AllYoung(o: Options, s: State, patience: nat)
  {
    YoungEntries(s, patience) && forall c :: c in s.callers ==> Young(o, s, patience, s.callers[c].pc)
  }

  lemma YoungEntriesStep(o: Options, s: State, patience: nat, step: Step)
    requires Inv(o, s) && AllYoung(o, s, patience) && Prompt(s, patience) && Next(o, s, step).Some?
    ensures YoungEntries(Next(o, s, step).value, patience)
  {
    hide RunsOk, SourceOk, LiveLock;
    if step.Store? {
      assert CallerOk(o, s, s.callers[step.c]) && Young(o, s, patience, s.callers[step.c].pc);
    }
  }

  lemma YoungStep(o: Options, s: State, patience: nat, step: Step)
    requires Inv(o, s) && AllYoung(o, s, patience) && Prompt(s, patience) && Next(o, s, step).Some?
    ensures AllYoung(o, Next(o, s, step).value, patience)
  {
    hide RunsOk, SourceOk, CallerOk, Prompt;
    YoungEntriesStep(o, s, patience, step);
  }

  lemma {:induction false} FreshRun(o: Options, r: Run, patience: nat, i: nat)
    requires IsRun(o, r) && i < |r.states| && AlwaysPrompt(r, patience)
    ensures AllYoung(o, r.states[i], patience)
  {
    hide Next, Young, Inv, Prompt;
    if i > 0 {
      FreshRun(o, r, patience, i - 1);
      RunOk(o, r, i - 1);
      assert Next(o, r.states[i - 1], r.steps[i - 1]) == Some(r.states[i]);
      YoungStep(o, r.states[i - 1], patience, r.steps[i - 1]);
    }
  }

  /** When owners take less than `patience` milliseconds, what is read is no older than that and the time to live. */
  lemma CachedValuesAreFresh(o: Options, r: Run, patience: nat, i: nat, c: CallId)
    requires IsRun(o, r) && i < |r.states| && c in r.states[i].callers && AlwaysPrompt(r, patience)
    ensures var pc := r.states[i].callers[c].pc;
            pc.Returned? && pc.source.Cached? ==>
              pc.product.madeAt <= pc.source.readAt <= pc.product.madeAt + 1000 * o.ttlSeconds + patience - 2
  {
    RunOk(o, r, i);
    FreshRun(o, r, patience, i);
    assert CallerOk(o, r.states[i], r.states[i].callers[c]);
    assert Young(o, r.states[i], patience, r.states[i].callers[c].pc);
  }

  /** A slow store, and a read in the entry's last millisecond. */
  function Aging(o: Options, args: Args, value: Value, patience: nat): Run
    requires patience >= 1 && o.ttlSeconds >= 1
  {
    var l := o.lockOf(args);
    var ms := 1000 * o.lockTtlSeconds;
    var product := Product(o.keyOf(args), value, 0);
    var s1 := Put(Begun(), 0, Caller(args, Reading, 0));
    var s2 := Put(s1, 0, Caller(args, Locking, 0));
    var s3 := Put(s2.(locks := s2.locks[l := ms]), 0, Caller(args, Owning(0), 0));
    var s4 := Put(s3.(products := s3.products + {product}), 0, Caller(args, Storing(0, product), 1));
    var s5 := s4.(clock := patience - 1);
    var s6 := Put(s5.(entries := s5.entries[product.key := Entry(product, s5.clock)]), 0,
                  Caller(args, Releasing(0, Some(product)), 1));
    var s7 := Put(s6.(locks := s6.locks - {l}), 0, Caller(args, Returned(product, Computed), 1));
    var s8 := s7.(clock := s7.clock + 1000 * o.ttlSeconds - 1);
    var s9 := Put(s8, 1, Caller(args, Reading, 0));
    var s10 := Put(s9, 1, Caller(args, FromCache(s9, product.key), 0));
    Run([Begun(), s1, s2, s3, s4, s5, s6, s7, s8, s9, s10],
        [Arrive(0, args), Read(0), Lock(0), RunOriginal(0, Some(value)), Wait(patience - 1), Store(0, true),
         Release(0, true), Wait(1000 * o.ttlSeconds - 1), Arrive(1, args), Read(1)])
  }

  lemma AgingBegins(o: Options, args: Args, value: Value, patience: nat)
    requires patience >= 1 && o.ttlSeconds >= 1
    ensures var r := Aging(o, args, value, patience);
            forall i :: 0 <= i < 5 ==> Next(o, r.states[i], r.steps[i]) == Some(r.states[i + 1])
  {
    var r := Aging(o, args, value, patience);
    assert Next(o, r.states[0], r.steps[0]) == Some(r.states[1]);
    assert Next(o, r.states[1], r.steps[1]) == Some(r.states[2]);
    assert Next(o, r.states[2], r.steps[2]) == Some(r.states[3]);
    assert Next(o, r.states[3], r.steps[3]) == Some(r.states[4]);
    assert Next(o, r.states[4], r.steps[4]) == Some(r.states[5]);
  }

  lemma AgingEnds(o: Options, args: Args, value: Value, patience: nat)
    requires patience >= 1 && o.ttlSeconds >= 1
    ensures var r := Aging(o, args, value, patience);
            forall i :: 5 <= i < 10 ==> Next(o, r.states[i], r.steps[i]) == Some(r.states[i + 1])
  {
    var r := Aging(o, args, value, patience);
    assert Next(o, r.states[5], r.steps[5]) == Some(r.states[6]);
    assert Next(o, r.states[6], r.steps[6]) == Some(r.states[7]);
    assert Next(o, r.states[7], r.steps[7]) == Some(r.states[8]);
    assert Next(o, r.states[8], r.steps[8]) == Some(r.states[9]);
    assert Next(o, r.states[9], r.steps[9]) == Some(r.states[10]);
  }

  lemma AgingIsRun(o: Options, args: Args, value: Value, patience: nat)
    requires patience >= 1 && o.ttlSeconds >= 1
    ensures IsRun(o, Aging(o, args, value, patience))
  {
    hide Next;
    AgingBegins(o, args, value, patience);
    AgingEnds(o, args, value, patience);
  }

  lemma AgingIsPrompt(o: Options, args: Args, value: Value, patience: nat)
    requires patience >= 1 && o.ttlSeconds >= 1
    ensures AlwaysPrompt(Aging(o, args, value, patience), patience)
  {
  }

  /** The bound on the age is reached. */
  lemma AgeIsReached(o: Options, args: Args, value: Value, patience: nat)
    requires patience >= 1 && o.ttlSeconds >= 1
    ensures var r := Aging(o, args, value, patience);
            && IsRun(o, r) && AlwaysPrompt(r, patience) && |r.states| == 11 && 1 in r.states[10].callers
            && var pc := r.states[10].callers[1].pc;
            && pc.Returned? && pc.source.Cached?
            && pc.source.readAt == pc.product.madeAt + 1000 * o.ttlSeconds + patience - 2
  {
    hide IsRun, AlwaysPrompt;
    AgingIsRun(o, args, value, patience);
    AgingIsPrompt(o, args, value, patience);
  }

  /** A call that computes without the lock has first waited five polls. */
  lemma PollsFirst(o: Options, r: Run, i: nat, c: CallId)
    requires IsRun(o, r) && i < |r.states| && c in r.states[i].callers && r.states[i].callers[c].pc.Computing?
    ensures r.states[i].callers[c].pc.triedAt + 1000 <= r.states[i].clock
  {
    RunOk(o, r, i);
    assert CallerOk(o, r.states[i], r.states[i].callers[c]);
  }
}
