/**
 The decorated method as imperative code, with any number of steps of other callers between its
 commands. Each command is a step of the caching machine, so what holds in every run of it holds here.
 */
module CacheDecorator {
  import opened Wrappers
  import opened Cache

  predicate Involves(step: Step, c: CallId)
  {
    match step
    case Wait(_) | EvictEntry(_) | EvictLock(_) => false
    case _ => step.c == c
  }

  lemma OthersLeaveCaller(o: Options, s: State, step: Step, c: CallId)
    requires c in s.callers && !Involves(step, c) && Next(o, s, step).Some?
    ensures var t := Next(o, s, step).value;
            c in t.callers && t.callers[c] == s.callers[c] && s.clock <= t.clock
  {
  }

  lemma OneMoreStep(o: Options, r: Run, step: Step, t: State)
    requires IsRun(o, r) && Next(o, r.states[|r.steps|], step) == Some(t)
    ensures IsRun(o, Run(r.states + [t], r.steps + [step]))
  {
    hide Next;
    var q := Run(r.states + [t], r.steps + [step]);
    forall i | 0 <= i < |q.steps|
      ensures Next(o, q.states[i], q.steps[i]) == Some(q.states[i + 1])
    {
      if i < |r.steps| {
        assert q.states[i] == r.states[i] && q.states[i + 1] == r.states[i + 1] && q.steps[i] == r.steps[i];
      }
    }
  }

  /** What goes wrong for one call, and what the others do in the meantime. */
  datatype Circumstances = Circumstances(getOk: bool, lockOk: bool, pollOk: nat -> bool, result: Option<Value>,
                                         storeOk: bool, releaseOk: bool, others: nat -> seq<Step>)

  /** The state after the steps of others that are possible while a caller waits; its own steps are left out. */
  function Meanwhile(o: Options, s: State, c: CallId, steps: seq<Step>): State
  {
    if steps == [] then s
    else
      var n := |steps| - 1;
      var before := Meanwhile(o, s, c, steps[..n]);
      var next := Next(o, before, steps[n]);
      if next.Some? && !Involves(steps[n], c) then next.value else before
  }

  lemma NobodyMoves(o: Options, s: State, c: CallId)
    ensures Meanwhile(o, s, c, []) == s
  {
  }

  /** The state at a polling caller's look number `i`, 200 ms after the one before or later; `s` is where it began. */
  function AtLook(o: Options, s: State, c: CallId, args: Args, w: Circumstances, i: nat): State
    decreases i, 1
  {
    var before := BeforeLook(o, s, c, args, w, i);
    var seen := Meanwhile(o, before, c, w.others(2 + i));
    if seen.clock < before.clock + POLL_MS then seen.(clock := before.clock + POLL_MS) else seen
  }

  function BeforeLook(o: Options, s: State, c: CallId, args: Args, w: Circumstances, i: nat): State
    decreases i, 0
  {
    if i == 0 then s
    else
      var last := AtLook(o, s, c, args, w, i - 1);
      Put(last, c, Caller(args, Polling(s.clock, i, last.clock + POLL_MS), 0))
  }

  lemma NextLook(o: Options, s: State, c: CallId, args: Args, w: Circumstances, i: nat)
    ensures var before := BeforeLook(o, s, c, args, w, i);
            var seen := Meanwhile(o, before, c, w.others(2 + i));
            AtLook(o, s, c, args, w, i)
            == if seen.clock < before.clock + POLL_MS then seen.(clock := before.clock + POLL_MS) else seen
    ensures var last := AtLook(o, s, c, args, w, i);
            BeforeLook(o, s, c, args, w, i + 1)
            == Put(last, c, Caller(args, Polling(s.clock, i + 1, last.clock + POLL_MS), 0))
  {
    hide Meanwhile;
  }

  /** The look fails, or finds the value. */
  predicate Decisive(o: Options, s: State, c: CallId, args: Args, w: Circumstances, i: nat)
  {
    var now, key := AtLook(o, s, c, args, w, i), o.keyOf(args);
    !w.pollOk(i) || (key in now.entries && now.clock < now.entries[key].storedAt + 1000 * o.ttlSeconds)
  }

  /** The first look to fail or to find the value decides. */
  predicate DecidedBy(o: Options, s: State, c: CallId, args: Args, w: Circumstances, i: nat,
                      r: Option<Product>, slept: nat)
  {
    && Decisive(o, s, c, args, w, i) && (forall j :: 0 <= j < i ==> !Decisive(o, s, c, args, w, j))
    && slept == (i + 1) * POLL_MS
    && if w.pollOk(i) then r == Some(AtLook(o, s, c, args, w, i).entries[o.keyOf(args)].product) else r == None
  }

  predicate Decided(o: Options, s: State, c: CallId, args: Args, w: Circumstances, r: Option<Product>, slept: nat)
  {
    exists i: nat :: i < POLLS && DecidedBy(o, s, c, args, w, i, r, slept)
  }

  predicate Undecided(o: Options, s: State, c: CallId, args: Args, w: Circumstances)
  {
    forall i: nat :: i < POLLS ==> !Decisive(o, s, c, args, w, i)
  }

  /** Where a caller that finds the lock taken starts to poll. */
  function Refused(s: State, c: CallId, args: Args): State
  {
    Put(s, c, Caller(args, Polling(s.clock, 0, s.clock + POLL_MS), 0))
  }

  predicate AllPollsOk(w: Circumstances)
  {
    forall i :: 0 <= i < POLLS ==> w.pollOk(i)
  }

  lemma GoodPollsAnswer(o: Options, s: State, c: CallId, args: Args, w: Circumstances, r: Option<Product>, slept: nat)
    requires Decided(o, s, c, args, w, r, slept) && AllPollsOk(w)
    ensures r.Some?
  {
    hide AtLook, Decisive;
  }

  /** Nobody else does anything during the call. */
  ghost predicate Undisturbed(w: Circumstances)
  {
    forall n :: w.others(n) == []
  }

  class Decorator {
    const o: Options
    var world: State
    ghost var run: Run

    constructor (o: Options)
      ensures Valid() && this.o == o && world == Begun()
    {
      this.o, world := o, Begun();
      run := Run([Begun()], []);
    }

    ghost predicate Valid()
      reads this
    {
      IsRun(o, run) && run.states[|run.steps|] == world
    }

    method Advance(step: Step, t: State)
      requires Valid() && Next(o, world, step) == Some(t)
      modifies this
      ensures Valid() && world == t
    {
      OneMoreStep(o, run, step, t);
      run := Run(run.states + [t], run.steps + [step]);
      world := t;
    }

    /** Other callers, the clock and evictions. */
    method Others(c: CallId, steps: seq<Step>)
      requires Valid() && c in world.callers
      modifies this
      ensures Valid() && c in world.callers && world.callers[c] == old(world.callers[c])
      ensures old(world.clock) <= world.clock && world == Meanwhile(o, old(world), c, steps)
    {
      hide IsRun, Next;
      assert steps[..|steps|] == steps;
      for i := 0 to |steps|
        invariant world == Meanwhile(o, old(world), c, steps[..i])
        invariant Valid() && c in world.callers && world.callers[c] == old(world.callers[c])
        invariant old(world.clock) <= world.clock
      {
        assert steps[..i + 1][..i] == steps[..i];
        var next := Next(o, world, steps[i]);
        if next.Some? && !Involves(steps[i], c) {
          OthersLeaveCaller(o, world, steps[i], c);
          Advance(steps[i], next.value);
        }
      }
    }

    method Get(key: CacheKey) returns (raw: Option<Entry>)
      ensures raw == if LiveEntry(o, world, key) then Some(world.entries[key]) else None
    {
      raw := if key in world.entries && world.clock < world.entries[key].storedAt + 1000 * o.ttlSeconds
             then Some(world.entries[key]) else None;
    }

    /** The caller's answer is where its path of the machine has ended. */
    ghost predicate Answers(c: CallId, args: Args, r: Option<Product>)
      reads this
    {
      && c in world.callers && world.callers[c].args == args
      && match r
         case Some(product) => world.callers[c].pc.Returned? && world.callers[c].pc.product == product
         case None => world.callers[c].pc.Threw?
    }

    lemma GenuineAnswer(c: CallId, args: Args, r: Option<Product>)
      requires Valid() && Answers(c, args, r)
      ensures world.callers[c].runs <= 1
      ensures r.Some? ==> r.value in world.products && r.value.key == o.keyOf(args)
      ensures r.Some? ==> world.callers[c].runs == (if world.callers[c].pc.source.Cached? then 0 else 1)
    {
      RunOk(o, run, |run.steps|);
      assert CallerOk(o, world, world.callers[c]);
    }

    ghost predicate At(c: CallId, args: Args, pc: Pc, runs: nat)
      reads this
    {
      Valid() && c in world.callers && world.callers[c] == Caller(args, pc, runs)
    }

    method Hit(c: CallId, args: Args, step: Step, entry: Entry) returns (r: Option<Product>)
      requires Valid() && c in world.callers && world.callers[c].args == args && world.callers[c].runs == 0
      requires o.keyOf(args) in world.entries && entry == world.entries[o.keyOf(args)]
      requires Next(o, world, step) == Some(Put(world, c, world.callers[c].(pc := FromCache(world, o.keyOf(args)))))
      modifies this
      ensures Valid() && Answers(c, args, r) && world.callers[c].runs == 0 && r == Some(entry.product)
    {
      Advance(step, Put(world, c, world.callers[c].(pc := FromCache(world, o.keyOf(args)))));
      r := Some(entry.product);
    }

    /** A command that fails before the original method is reached ends the call. */
    method Abort(c: CallId, args: Args) returns (r: Option<Product>)
      requires Valid() && c in world.callers && world.callers[c].args == args && world.callers[c].runs == 0
      requires world.callers[c].pc.Reading? || world.callers[c].pc.Locking? || world.callers[c].pc.Polling?
      modifies this
      ensures Valid() && Answers(c, args, r) && world.callers[c].runs == 0 && r.None?
    {
      hide IsRun;
      r := None;
      Advance(Fail(c), Put(world, c, world.callers[c].(pc := Threw)));
    }

    /** The result is in the cache from now on, the lock is gone, and nobody but the caller has moved. */
    ghost predicate Stored(before: State, c: CallId, args: Args, product: Product)
      reads this
    {
      && o.keyOf(args) in world.entries && world.entries[o.keyOf(args)] == Entry(product, world.clock)
      && o.lockOf(args) !in world.locks
      && c in world.callers && world.callers == before.callers[c := world.callers[c]]
    }

    /** With the lock: the result goes into the cache, and the lock is deleted whatever has happened. */
    method ComputeAndStore(c: CallId, args: Args, w: Circumstances) returns (r: Option<Product>)
      requires Valid() && c in world.callers && world.callers[c].pc.Owning?
      requires world.callers[c] == Caller(args, world.callers[c].pc, 0)
      modifies this
      ensures Valid() && Answers(c, args, r) && world.callers[c].runs == 1
      ensures r.Some? <==> w.result.Some? && w.storeOk && w.releaseOk
      ensures r.Some? ==> Some(r.value.value) == w.result
      ensures r.Some? && Undisturbed(w) ==> Stored(old(world), c, args, r.value)
    {
      hide IsRun;
      var lockedAt := world.callers[c].pc.lockedAt;
      Others(c, w.others(2));
      r := None;
      if w.result.None? {
        Advance(RunOriginal(c, None), Put(world, c, Caller(args, Releasing(lockedAt, None), 1)));
      } else {
        var product := Product(o.keyOf(args), w.result.value, world.clock);
        Advance(RunOriginal(c, w.result),
                Put(world.(products := world.products + {product}), c, Caller(args, Storing(lockedAt, product), 1)));
        Others(c, w.others(3));
        if w.storeOk {
          r := Some(product);
          Advance(Store(c, true), Put(world.(entries := world.entries[product.key := Entry(product, world.clock)]), c,
                                      Caller(args, Releasing(lockedAt, r), 1)));
        } else {
          Advance(Store(c, false), Put(world, c, Caller(args, Releasing(lockedAt, None), 1)));
        }
      }
      Others(c, w.others(4));
      r := LetGo(c, args, r, w.releaseOk);
    }

    method LetGo(c: CallId, args: Args, result: Option<Product>, ok: bool) returns (r: Option<Product>)
      requires Valid() && c in world.callers && world.callers[c].pc.Releasing?
      requires world.callers[c] == Caller(args, Releasing(world.callers[c].pc.lockedAt, result), 1)
      modifies this
      ensures Valid() && Answers(c, args, r) && world.callers[c].runs == 1
      ensures r == if ok then result else None
      ensures world.entries == old(world.entries) && world.clock == old(world.clock)
      ensures world.callers == old(world.callers)[c := world.callers[c]]
      ensures world.locks == if ok then old(world.locks) - {o.lockOf(args)} else old(world.locks)
    {
      hide IsRun;
      if ok {
        r := result;
        Advance(Release(c, true), Put(world.(locks := world.locks - {o.lockOf(args)}), c,
                                      Caller(args, if r.Some? then Returned(r.value, Computed) else Threw, 1)));
      } else {
        r := None;
        Advance(Release(c, false), Put(world, c, Caller(args, Threw, 1)));
      }
    }

    method ComputeAlone(c: CallId, args: Args, triedAt: nat, result: Option<Value>) returns (r: Option<Product>)
      requires At(c, args, Computing(triedAt), 0)
      modifies this
      ensures Valid() && Answers(c, args, r) && world.callers[c].runs == 1
      ensures r.Some? <==> result.Some?
      ensures r.Some? ==> Some(r.value.value) == result
    {
      hide IsRun;
      if result.None? {
        r := None;
        Advance(RunOriginal(c, None), Put(world, c, Caller(args, Threw, 1)));
      } else {
        var product := Product(o.keyOf(args), result.value, world.clock);
        r := Some(product);
        Advance(RunOriginal(c, result),
                Put(world.(products := world.products + {product}), c, Caller(args, Returned(product, Computed), 1)));
      }
    }

    /** One sleep and the look after it; after the last a caller that finds nothing goes on to compute. */
    method LookAgain(c: CallId, args: Args, triedAt: nat, w: Circumstances, i: nat, ghost start: State)
      returns (done: bool, r: Option<Product>)
      requires Valid() && i < POLLS && world == BeforeLook(o, start, c, args, w, i) && triedAt == start.clock
      requires c in world.callers && world.callers[c] == Caller(args, Polling(triedAt, i, world.clock + POLL_MS), 0)
      modifies this
      ensures Valid() && (done <==> Decisive(o, start, c, args, w, i))
      ensures done ==>
                && Answers(c, args, r) && world.callers[c].runs == 0
                && r == if w.pollOk(i) then Some(AtLook(o, start, c, args, w, i).entries[o.keyOf(args)].product)
                        else None
      ensures !done && i + 1 < POLLS ==> world == BeforeLook(o, start, c, args, w, i + 1)
      ensures !done ==>
                c in world.callers
                && world.callers[c] == Caller(args, if i + 1 < POLLS
                                                    then Polling(triedAt, i + 1, world.clock + POLL_MS)
                                                    else Computing(triedAt), 0)
    {
      hide IsRun, Meanwhile, AtLook, BeforeLook;
      NextLook(o, start, c, args, w, i);
      var wakeAt := world.clock + POLL_MS;
      Others(c, w.others(2 + i));
      if world.clock < wakeAt {
        Advance(Wait(wakeAt - world.clock), world.(clock := wakeAt));
      }
      assert world == AtLook(o, start, c, args, w, i);
      if !w.pollOk(i) {
        r := Abort(c, args);
        return true, r;
      }
      var raw := Get(o.keyOf(args));
      if raw.Some? {
        r := Hit(c, args, Poll(c), raw.value);
        return true, r;
      }
      var pc := if i + 1 < POLLS then Polling(triedAt, i + 1, world.clock + POLL_MS) else Computing(triedAt);
      Advance(Poll(c), Put(world, c, Caller(args, pc, 0)));
      done, r := false, None;
    }

    /** Five sleeps, each followed by another look; a caller that finds nothing goes on to compute. */
    method PollCache(c: CallId, args: Args, triedAt: nat, w: Circumstances)
      returns (done: bool, r: Option<Product>, slept: nat)
      requires At(c, args, Polling(triedAt, 0, world.clock + POLL_MS), 0) && triedAt == world.clock
      modifies this
      ensures Valid() && slept <= POLLS * POLL_MS
      ensures done ==> Answers(c, args, r) && world.callers[c].runs == 0
      ensures done ==> Decided(o, old(world), c, args, w, r, slept)
      ensures !done ==> At(c, args, Computing(triedAt), 0) && slept == POLLS * POLL_MS
      ensures !done ==> Undecided(o, old(world), c, args, w)
    {
      hide IsRun, Meanwhile, AtLook, Decisive, Answers;
      done, r, slept := false, None, 0;
      ghost var start := world;
      for i := 0 to POLLS
        invariant Valid() && slept == i * POLL_MS && c in world.callers
        invariant i < POLLS ==> world == BeforeLook(o, start, c, args, w, i)
        invariant world.callers[c] == Caller(args, if i < POLLS then Polling(triedAt, i, world.clock + POLL_MS)
                                                   else Computing(triedAt), 0)
        invariant forall j :: 0 <= j < i ==> !Decisive(o, start, c, args, w, j)
      {
        slept := slept + POLL_MS;
        done, r := LookAgain(c, args, triedAt, w, i, start);
        if done {
          assert DecidedBy(o, start, c, args, w, i, r, slept);
          return;
        }
      }
    }

    /** The cache has nothing: compute under the lock, or poll and then compute without it. */
    method Fill(c: CallId, args: Args, w: Circumstances) returns (r: Option<Product>, slept: nat)
      requires At(c, args, Locking, 0)
      modifies this
      ensures Valid() && Answers(c, args, r) && slept <= POLLS * POLL_MS
      ensures var tried := Meanwhile(o, old(world), c, w.others(1));
              var l := o.lockOf(args);
              if !w.lockOk then r.None? && world.callers[c].runs == 0 && slept == 0
              else if l in tried.locks && tried.clock < tried.locks[l]
              then
                if world.callers[c].runs == 0 then Decided(o, Refused(tried, c, args), c, args, w, r, slept)
                else
                  && Undecided(o, Refused(tried, c, args), c, args, w)
                  && slept == POLLS * POLL_MS && (r.Some? <==> w.result.Some?)
              else
                && slept == 0 && world.callers[c].runs == 1
                && (r.Some? <==> w.result.Some? && w.storeOk && w.releaseOk)
                && (r.Some? && Undisturbed(w) ==> Stored(old(world), c, args, r.value))
      ensures world.callers[c].runs == 1 && r.Some? ==> Some(r.value.value) == w.result
      ensures world.callers[c].runs <= 1
    {
      hide IsRun, Meanwhile, Decided, Undecided;
      slept := 0;
      NobodyMoves(o, world, c);
      Others(c, w.others(1));
      if !w.lockOk {
        r := Abort(c, args);
        return;
      }
      var l := o.lockOf(args);
      if !(l in world.locks && world.clock < world.locks[l]) {
        Advance(Lock(c), Put(world.(locks := world.locks[l := world.clock + 1000 * o.lockTtlSeconds]), c,
                             Caller(args, Owning(world.clock), 0)));
        r := ComputeAndStore(c, args, w);
        return;
      }
      var triedAt := world.clock;
      Advance(Lock(c), Put(world, c, Caller(args, Polling(triedAt, 0, world.clock + POLL_MS), 0)));
      var done;
      done, r, slept := PollCache(c, args, triedAt, w);
      if !done {
        Others(c, w.others(7));
        r := ComputeAlone(c, args, triedAt, w.result);
      }
    }

    /** A call: from the cache, by computing under the lock, or after five polls by computing without it. */
    method Call(c: CallId, args: Args, w: Circumstances) returns (r: Option<Product>, runs: nat, slept: nat)
      requires Valid() && c !in world.callers
      modifies this
      ensures Valid() && Answers(c, args, r) && runs == world.callers[c].runs
      ensures runs <= 1 && slept <= POLLS * POLL_MS
      ensures r.Some? ==> r.value in world.products && r.value.key == o.keyOf(args)
      ensures r.Some? ==> runs == (if world.callers[c].pc.source.Cached? then 0 else 1)
      // what it answers, by what is in the cache when it looks, who has the lock when it asks, and what fails
      ensures var key, l := o.keyOf(args), o.lockOf(args);
              var seen := Meanwhile(o, Put(old(world), c, Caller(args, Reading, 0)), c, w.others(0));
              var tried := Meanwhile(o, Put(seen, c, Caller(args, Locking, 0)), c, w.others(1));
              if !w.getOk then r.None? && runs == 0 && slept == 0
              else if key in seen.entries && seen.clock < seen.entries[key].storedAt + 1000 * o.ttlSeconds
              then r == Some(seen.entries[key].product) && runs == 0 && slept == 0
              else if !w.lockOk then r.None? && runs == 0 && slept == 0
              else if l in tried.locks && tried.clock < tried.locks[l]
              then
                if runs == 0 then Decided(o, Refused(tried, c, args), c, args, w, r, slept)
                else
                  && Undecided(o, Refused(tried, c, args), c, args, w)
                  && slept == POLLS * POLL_MS && (r.Some? <==> w.result.Some?)
              else
                && slept == 0 && runs == 1
                && (r.Some? <==> w.result.Some? && w.storeOk && w.releaseOk)
                && (r.Some? && Undisturbed(w) ==> Stored(old(world), c, args, r.value))
      ensures runs == 1 && r.Some? ==> Some(r.value.value) == w.result
      // a call during which nothing fails has an answer
      ensures w.getOk && w.lockOk && AllPollsOk(w) && w.result.Some? && w.storeOk && w.releaseOk ==> r.Some?
    {
      hide IsRun, Inv, Meanwhile, Decided, Undecided, AllPollsOk;
      slept := 0;
      Advance(Arrive(c, args), Put(world, c, Caller(args, Reading, 0)));
      NobodyMoves(o, world, c);
      Others(c, w.others(0));
      var raw := Get(o.keyOf(args));
      if !w.getOk {
        r := Abort(c, args);
      } else if raw.Some? {
        r := Hit(c, args, Read(c), raw.value);
      } else {
        Advance(Read(c), Put(world, c, Caller(args, Locking, 0)));
        ghost var looking := world;
        r, slept := Fill(c, args, w);
        ghost var tried := Meanwhile(o, looking, c, w.others(1));
        if w.lockOk && LiveLock(tried, o.lockOf(args)) && AllPollsOk(w) && world.callers[c].runs == 0 {
          GoodPollsAnswer(o, Refused(tried, c, args), c, args, w, r, slept);
        }
      }
      GenuineAnswer(c, args, r);
      runs := world.callers[c].runs;
    }
  }

  /** Two calls of one key in a row, the second within the time to live: one run, and both give its product. */
  method CallTwice(d: Decorator, first: CallId, second: CallId, args: Args, again: Args,
                   w: Circumstances, later: Circumstances, ms: nat)
    returns (r: Option<Product>, runs: nat, r2: Option<Product>, runs2: nat)
    requires d.Valid() && first !in d.world.callers && second !in d.world.callers && first != second
    requires d.o.keyOf(args) == d.o.keyOf(again) && ms < 1000 * d.o.ttlSeconds
    requires !LiveEntry(d.o, d.world, d.o.keyOf(args)) && !LiveLock(d.world, d.o.lockOf(args))
    requires Undisturbed(w) && w.getOk && w.lockOk && w.result.Some? && w.storeOk && w.releaseOk
    requires later.getOk && later.others(0) == [Wait(ms)]
    modifies d
    ensures r.Some? && r2 == r && Some(r.value.value) == w.result && runs == 1 && runs2 == 0
  {
    var slept;
    r, runs, slept := d.Call(first, args, w);
    r2, runs2, slept := d.Call(second, again, later);
  }
}
