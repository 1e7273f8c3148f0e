/** Building runs one step at a time. */
module Paths {
  import opened Wrappers
  import opened Tables
  import opened TransferProtocol
  import opened Invariant

  /** Consecutive states and the steps between them. */
  predicate Path(cfg: Config, p: Run)
  {
    && |p.states| == |p.steps| + 1
    && forall i :: 0 <= i < |p.steps| ==> Next(cfg, p.states[i], p.steps[i]) == Some(p.states[i + 1])
  }

  function Last(p: Run): State
    requires |p.states| > 0
  {
    p.states[|p.states| - 1]
  }

  function Then(p: Run, step: Step, s: State): Run
  {
    Run(p.states + [s], p.steps + [step])
  }

  lemma ThenPath(cfg: Config, p: Run, step: Step, s: State)
    requires Path(cfg, p) && Next(cfg, Last(p), step) == Some(s)
    ensures Path(cfg, Then(p, step, s)) && Last(Then(p, step, s)) == s
    ensures Then(p, step, s).states[0] == p.states[0]
  {
    var q := Then(p, step, s);
    forall i | 0 <= i < |q.steps|
      ensures Next(cfg, q.states[i], q.steps[i]) == Some(q.states[i + 1])
    {
      if i < |p.steps| {
        assert q.states[i] == p.states[i] && q.states[i + 1] == p.states[i + 1] && q.steps[i] == p.steps[i];
      }
    }
  }

  /** One private statement: only worker `w` moves. */
  lemma Move(cfg: Config, p: Run, s: State, w: nat, x: Worker, y: Worker, rate: real) returns (q: Run)
    requires Path(cfg, p) && w < |s.workers| && Last(p) == Put(s, w, x)
    requires !VisibleStatement(x.pc) && !x.pc.CommitNew?
    requires Local(cfg, Put(s, w, x), w, rate) == Some(y)
    ensures Path(cfg, q) && Last(q) == Put(s, w, y) && q.states[0] == p.states[0]
  {
    hide Local;
    assert Put(Put(s, w, x), w, y) == Put(s, w, y);
    q := Then(p, Go(w, rate), Put(s, w, y));
    ThenPath(cfg, p, Go(w, rate), Put(s, w, y));
  }

  // ---------- workers that are in nobody's way ----------

  predicate Unburdened(x: Worker)
  {
    !x.locked && !HasPair(x) && !x.pc.BumpTo? && !x.pc.MarkDone? && !x.pc.CommitNew?
  }

  /** No other worker holds anything. */
  predicate Alone(s: State, w: nat)
  {
    w < |s.workers| && forall v :: 0 <= v < |s.workers| && v != w ==> Unburdened(s.workers[v])
  }

  lemma AloneIsFree(s: State, w: nat, x: Worker, k: Key, a: WalletId)
    requires Alone(s, w)
    ensures Alone(Put(s, w, x), w) && (x == s.workers[w] ==> Put(s, w, x) == s)
    ensures KeyFree(Put(s, w, x), w, k) && PairFree(Put(s, w, x), w, k) && WalletFree(Put(s, w, x), w, a)
    ensures !x.locked ==> AllFree(Put(s, w, x), k)
  {
  }
}
