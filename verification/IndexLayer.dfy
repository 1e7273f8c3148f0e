/** The unique ledger index alone, with the statuses left to chance: committed keys stay distinct. */
module IndexLayer {
  import opened Wrappers
  import opened Tables
  import opened TransferProtocol
  import opened History
  import opened Invariant

  /** A transaction whose pair went in has a key no committed transfer has used. */
  predicate PairFresh(h: seq<Commit>, x: Worker)
  {
    HasPair(x) ==> !KeyUsed(h, KeyOf(x))
  }

  predicate PairsApart(v: Worker, w: Worker)
  {
    HasPair(v) && HasPair(w) ==> KeyOf(v) != KeyOf(w)
  }

  predicate IndexInv(s: State)
  {
    && DistinctKeys(s.history)
    && (forall w :: 0 <= w < |s.workers| ==> PairFresh(s.history, s.workers[w]))
    && (forall v, w :: 0 <= v < |s.workers| && 0 <= w < |s.workers| && v != w
                       ==> PairsApart(s.workers[v], s.workers[w]))
  }

  /** Without an insert a worker has a pair only if it had it before. */
  lemma NoNewPair(s: State, t: State, w: nat)
    requires IndexInv(s) && w < |s.workers| && t.history == s.history
    requires |t.workers| == |s.workers| && t.workers == s.workers[w := t.workers[w]]
    requires HasPair(t.workers[w]) ==> HasPair(s.workers[w]) && KeyOf(t.workers[w]) == KeyOf(s.workers[w])
    ensures IndexInv(t)
  {
    forall v, u | 0 <= v < |t.workers| && 0 <= u < |t.workers| && v != u
      ensures PairsApart(t.workers[v], t.workers[u])
    {
      assert PairsApart(s.workers[v], s.workers[u]);
    }
    forall v | 0 <= v < |t.workers|
      ensures PairFresh(t.history, t.workers[v])
    {
      assert PairFresh(s.history, s.workers[v]);
    }
  }

  /** The index lets a pair in only when its key is neither committed nor being inserted. */
  lemma InsertKeeps(cfg: Config, seed: Db, s: State, w: nat, rate: real)
    requires cfg.uniqueIndex && Inv(cfg, seed, s) && IndexInv(s)
    requires w < |s.workers| && s.workers[w].pc.InsertPair? && Local(cfg, s, w, rate).Some?
    ensures IndexInv(Put(s, w, Local(cfg, s, w, rate).value))
  {
    hide LedgerOf, VersionOf, TransfersOf;
    var x := s.workers[w];
    var y := Local(cfg, s, w, rate).value;
    var k := KeyOf(x);
    assert WorkerOk(cfg, seed, s.history, x);
    if HasPair(y) {
      LogKeys(cfg, seed, s.history);
      TableKeys(seed.ledger, s.history, k);
      forall v | 0 <= v < |s.workers| && v != w
        ensures PairsApart(y, s.workers[v])
      {
        assert WorkerOk(cfg, seed, s.history, s.workers[v]);
      }
    }
    forall v, u | 0 <= v < |s.workers| && 0 <= u < |s.workers| && v != u
      ensures PairsApart(Put(s, w, y).workers[v], Put(s, w, y).workers[u])
    {
      assert PairsApart(s.workers[v], s.workers[u]);
    }
  }

  lemma LogKeys(cfg: Config, seed: Db, h: seq<Commit>)
    requires LogOk(cfg, seed, h)
    ensures forall i :: 0 <= i < |h| ==> h[i].job.key == Some(h[i].key)
  {
    hide LedgerOf, VersionOf;
    forall i | 0 <= i < |h|
      ensures h[i].job.key == Some(h[i].key)
    {
      assert Fits(cfg, seed, h[..i], h[i]);
    }
  }

  lemma CommitKeepsIndex(s: State, w: nat, pc: Pc)
    requires IndexInv(s) && w < |s.workers| && s.workers[w].pc.CommitNew? && !s.workers[w].failed
    requires pc.Threw? || pc.SendEmail?
    ensures IndexInv(CommitTransfer(s, w, pc))
  {
    var x := s.workers[w];
    var c := CommitLog(x);
    var t := CommitTransfer(s, w, pc);
    assert PairFresh(s.history, x);
    forall v | 0 <= v < |t.workers|
      ensures PairFresh(t.history, t.workers[v])
    {
      if v != w {
        assert PairFresh(s.history, s.workers[v]) && PairsApart(s.workers[v], x);
        KeyUsedAppend(s.history, c, KeyOf(s.workers[v]));
      }
    }
    forall v, u | 0 <= v < |t.workers| && 0 <= u < |t.workers| && v != u
      ensures PairsApart(t.workers[v], t.workers[u])
    {
      assert PairsApart(s.workers[v], s.workers[u]);
    }
  }

  lemma StatusPairsNothing(cfg: Config, s: State, w: nat, rate: real)
    requires w < |s.workers| && OnStatus(s.workers[w].pc) && Local(cfg, s, w, rate).Some?
    ensures !HasPair(Local(cfg, s, w, rate).value)
  {
    hide CheckStatement, WriteStatement, AroundStatement, KeyFree, FindTransfer, HasKey, SeesRecord;
  }

  lemma ChecksPairNothing(cfg: Config, s: State, w: nat, rate: real)
    requires w < |s.workers| && OnChecks(s.workers[w].pc) && Local(cfg, s, w, rate).Some?
    ensures !HasPair(Local(cfg, s, w, rate).value)
  {
    hide StatusStatement, WriteStatement, AroundStatement, Balance, Exchanged;
  }

  lemma AroundPairsNothing(cfg: Config, s: State, w: nat, rate: real)
    requires w < |s.workers| && Local(cfg, s, w, rate).Some?
    requires !OnStatus(s.workers[w].pc) && !OnChecks(s.workers[w].pc) && !OnWrites(s.workers[w].pc)
    ensures !HasPair(Local(cfg, s, w, rate).value)
  {
    hide StatusStatement, CheckStatement, WriteStatement, FindTransfer, HasKey, BackoffMs;
  }

  lemma WritesKeepPair(cfg: Config, s: State, w: nat, rate: real)
    requires w < |s.workers| && Local(cfg, s, w, rate).Some?
    requires OnWrites(s.workers[w].pc) && !s.workers[w].pc.InsertPair?
    ensures var y := Local(cfg, s, w, rate).value;
            HasPair(y) ==> HasPair(s.workers[w]) && KeyOf(y) == KeyOf(s.workers[w])
  {
    hide StatusStatement, CheckStatement, AroundStatement, PairCollides, KeyFree, WalletFree, PairFree, SeesRecord;
  }

  /** No statement but the insert gives a worker a pair. */
  lemma OnlyInsertPairs(cfg: Config, s: State, w: nat, rate: real)
    requires w < |s.workers| && Local(cfg, s, w, rate).Some? && !s.workers[w].pc.InsertPair?
    ensures var y := Local(cfg, s, w, rate).value;
            HasPair(y) ==> HasPair(s.workers[w]) && KeyOf(y) == KeyOf(s.workers[w])
  {
    hide Local, HasPair, KeyOf;
    var pc := s.workers[w].pc;
    if OnStatus(pc) {
      StatusPairsNothing(cfg, s, w, rate);
    } else if OnChecks(pc) {
      ChecksPairNothing(cfg, s, w, rate);
    } else if OnWrites(pc) {
      WritesKeepPair(cfg, s, w, rate);
    } else {
      AroundPairsNothing(cfg, s, w, rate);
    }
  }

  lemma NoPairAppears(cfg: Config, s: State, w: nat, rate: real)
    requires w < |s.workers| && Statement(cfg, s, w, rate).Some?
    requires !s.workers[w].pc.InsertPair? && !s.workers[w].pc.CommitNew?
    requires Reconciling(s.workers[w].pc) && s.workers[w].pc.inside ==> s.workers[w].failed
    ensures var t := Statement(cfg, s, w, rate).value;
            && t.history == s.history && |t.workers| == |s.workers|
            && t.workers == s.workers[w := t.workers[w]]
            && (HasPair(t.workers[w]) ==> HasPair(s.workers[w]) && KeyOf(t.workers[w]) == KeyOf(s.workers[w]))
  {
    hide Local, AllFree, MayUpdate;
    if Local(cfg, s, w, rate).Some? {
      OnlyInsertPairs(cfg, s, w, rate);
    }
  }

  lemma IndexGo(cfg: Config, seed: Db, s: State, w: nat, rate: real)
    requires cfg.uniqueIndex && Inv(cfg, seed, s) && IndexInv(s)
    requires w < |s.workers| && Statement(cfg, s, w, rate).Some?
    ensures IndexInv(Statement(cfg, s, w, rate).value)
  {
    hide Inv, IndexInv, Local;
    var x := s.workers[w];
    FailedOnlyThere(cfg, seed, s, w);
    if x.pc.InsertPair? {
      InsertKeeps(cfg, seed, s, w, rate);
    } else if x.pc.CommitNew? {
      CommitKeepsIndex(s, w, SendEmail(Some(x.transferId)));
    } else {
      NoPairAppears(cfg, s, w, rate);
      NoNewPair(s, Statement(cfg, s, w, rate).value, w);
    }
  }

  /** A transaction with a failed statement goes on only to reconcile and to meet the next failure. */
  lemma FailedOnlyThere(cfg: Config, seed: Db, s: State, w: nat)
    requires Inv(cfg, seed, s) && w < |s.workers|
    ensures s.workers[w].failed ==> s.workers[w].pc.InsertTransfer? || Reconciling(s.workers[w].pc)
    ensures Reconciling(s.workers[w].pc) && s.workers[w].pc.inside ==> s.workers[w].failed
  {
    hide KnowsOk, BumpsOk, AnswerOk, LogOk, TablesOk;
    assert WorkerOk(cfg, seed, s.history, s.workers[w]);
  }

  lemma IndexStep(cfg: Config, seed: Db, s: State, step: Step)
    requires cfg.uniqueIndex && Inv(cfg, seed, s) && IndexInv(s) && Next(cfg, s, step).Some?
    ensures IndexInv(Next(cfg, s, step).value)
  {
    hide Inv, Statement;
    var t := Next(cfg, s, step).value;
    match step {
      case Go(w, rate) => IndexGo(cfg, seed, s, w, rate);
      case Start(w, _) => NoNewPair(s, t, w);
      case Break(w) => NoNewPair(s, t, w);
      case Crash(w) => NoNewPair(s, t, w);
      case LoseAck(w) =>
        if s.workers[w].pc.CommitNew? {
          FailedOnlyThere(cfg, seed, s, w);
          CommitKeepsIndex(s, w, Threw);
        } else {
          NoNewPair(s, t, w);
        }
      case _ =>
    }
  }

  /** With the index, whatever happens to the statuses, no key is ever used by two committed transfers. */
  lemma {:induction false} IndexRun(cfg: Config, r: Run, i: nat)
    requires cfg.uniqueIndex && IsRun(cfg, r) && i < |r.states|
    ensures IndexInv(r.states[i])
  {
    hide Inv;
    if i > 0 {
      IndexRun(cfg, r, i - 1);
      RunOk(cfg, r, i - 1);
      assert Next(cfg, r.states[i - 1], r.steps[i - 1]) == Some(r.states[i]);
      IndexStep(cfg, r.states[0].db, r.states[i - 1], r.steps[i - 1]);
    }
  }
}
