/** Conversion keeps worth: at prices the exchange rates agree with, no run changes what the ledger is worth. */
module Worth {
  import opened Wrappers
  import opened Tables
  import opened TransferProtocol
  import Analytics

  /** What one unit of a currency is worth. */
  type Prices = Currency -> real

  /** A rate between two currencies agrees with their prices; within one currency no rate is asked for. */
  predicate Agrees(prices: Prices, from: Currency, to: Currency, rate: real)
  {
    from != to ==> rate * prices(to) == prices(from)
  }

  /** Two wallets' balances together. */
  function WorthOfTwo(cfg: Config, prices: Prices, ledger: seq<LedgerRow>, a: WalletId, b: WalletId): real
    requires a in cfg.wallets && b in cfg.wallets
  {
    prices(cfg.wallets[a].currency) * Balance(ledger, a) + prices(cfg.wallets[b].currency) * Balance(ledger, b)
  }

  lemma MovingKeepsWorth(from: real, to: real, amount: real, credit: real, price: real, priceTo: real)
    requires credit * priceTo == amount * price
    ensures price * (from - amount) + priceTo * (to + credit) == price * from + priceTo * to
  {
  }

  /** An amount converted at a rate that prices agree with is worth what it was. */
  lemma ExchangeKeepsWorth(amount: real, rate: real, price: real, priceTo: real)
    requires rate * priceTo == price
    ensures Exchanged(amount, rate) * priceTo == amount * price
  {
    assert amount * (rate * priceTo) == (amount * rate) * priceTo;
  }

  /** Converting there and back, at rates that undo one another, restores the amount. */
  lemma ThereAndBack(amount: real, rate: real, back: real)
    requires rate * back == 1.0
    ensures Exchanged(Exchanged(amount, rate), back) == amount
  {
    assert (amount * rate) * back == amount * (rate * back);
  }

  predicate Paying(x: Worker)
  {
    || OnWrites(x.pc) || x.pc.InsertTransfer? || x.pc.CommitNew?
    || x.pc == ReconcileTransfer(true) || x.pc == ReconcileLedger(true) || (x.pc.ReconcileMark? && x.pc.inside)
  }

  /** The credit is worth the debit. */
  predicate WorthAsMuch(cfg: Config, prices: Prices, x: Worker)
  {
    && x.job.from in cfg.wallets && x.job.to in cfg.wallets
    && x.credit * prices(cfg.wallets[x.job.to].currency) == x.job.amount * prices(cfg.wallets[x.job.from].currency)
  }

  predicate AllWorthAsMuch(cfg: Config, prices: Prices, s: State)
  {
    forall w :: 0 <= w < |s.workers| && Paying(s.workers[w]) ==> WorthAsMuch(cfg, prices, s.workers[w])
  }

  /** The rate a conversion gets agrees with the prices of its two currencies. */
  predicate FairStep(cfg: Config, prices: Prices, s: State, step: Step)
  {
    step.Go? && step.w < |s.workers| && s.workers[step.w].pc.Convert? ==>
      var job := s.workers[step.w].job;
      job.from in cfg.wallets && job.to in cfg.wallets ==>
        Agrees(prices, cfg.wallets[job.from].currency, cfg.wallets[job.to].currency, step.rate)
  }

  predicate FairRun(cfg: Config, prices: Prices, r: Run)
  {
    forall i :: 0 <= i < |r.steps| && i < |r.states| ==> FairStep(cfg, prices, r.states[i], r.steps[i])
  }

  function Everything(cfg: Config): Analytics.Scope
  {
    Analytics.Scope(cfg.wallets, cfg.wallets.Keys)
  }

  /** All balances, each at its currency's price. */
  ghost function LedgerWorth(cfg: Config, prices: Prices, ledger: seq<LedgerRow>): real
  {
    Analytics.Worth(Everything(cfg), ledger, cfg.wallets.Keys, prices)
  }

  lemma ConvertIsFair(cfg: Config, prices: Prices, s: State, w: nat, rate: real)
    requires w < |s.workers| && s.workers[w].pc.Convert? && FairStep(cfg, prices, s, Go(w, rate))
    requires Local(cfg, s, w, rate).Some?
    ensures WorthAsMuch(cfg, prices, Local(cfg, s, w, rate).value)
  {
    hide Exchanged;
    var job := s.workers[w].job;
    var from, to := cfg.wallets[job.from].currency, cfg.wallets[job.to].currency;
    if from != to {
      ExchangeKeepsWorth(job.amount, rate, prices(from), prices(to));
    }
  }

  /** The same job and credit, paying only if it was already. */
  predicate Carries(x: Worker, y: Worker)
  {
    y.job == x.job && y.credit == x.credit && (Paying(y) ==> Paying(x))
  }

  lemma ErrorsStopPaying(cfg: Config, x: Worker)
    ensures forall e :: Carries(x, AfterError(cfg, x, e))
  {
  }

  lemma StatusCarries(cfg: Config, s: State, w: nat)
    requires w < |s.workers| && StatusStatement(cfg, s, w).Some?
    ensures Carries(s.workers[w], StatusStatement(cfg, s, w).value)
  {
    hide FindTransfer, HasKey, KeyFree, SeesRecord, AfterError;
    ErrorsStopPaying(cfg, s.workers[w]);
  }

  lemma ChecksCarry(cfg: Config, s: State, w: nat, rate: real)
    requires w < |s.workers| && CheckStatement(cfg, s, w, rate).Some? && !s.workers[w].pc.Convert?
    ensures Carries(s.workers[w], CheckStatement(cfg, s, w, rate).value)
  {
    hide Balance, Exchanged, Ver, AfterError;
    ErrorsStopPaying(cfg, s.workers[w]);
  }

  lemma WritesCarry(cfg: Config, s: State, w: nat)
    requires w < |s.workers| && WriteStatement(cfg, s, w).Some?
    ensures Carries(s.workers[w], WriteStatement(cfg, s, w).value)
  {
    hide KeyFree, PairFree, WalletFree, PairCollides, Ver, SeesRecord, AfterError;
    ErrorsStopPaying(cfg, s.workers[w]);
  }

  lemma AroundCarries(cfg: Config, s: State, w: nat)
    requires w < |s.workers| && AroundStatement(cfg, s, w).Some?
    ensures Carries(s.workers[w], AroundStatement(cfg, s, w).value)
  {
    hide FindTransfer, HasKey, BackoffMs, AfterError;
    ErrorsStopPaying(cfg, s.workers[w]);
  }

  /** Only the conversion sets the credit, and only it starts paying. */
  lemma StatementsCarry(cfg: Config, s: State, w: nat, rate: real)
    requires w < |s.workers| && !s.workers[w].pc.Convert? && Local(cfg, s, w, rate).Some?
    ensures Carries(s.workers[w], Local(cfg, s, w, rate).value)
  {
    hide StatusStatement, CheckStatement, WriteStatement, AroundStatement, Carries;
    var pc := s.workers[w].pc;
    if OnStatus(pc) {
      StatusCarries(cfg, s, w);
    } else if OnChecks(pc) {
      ChecksCarry(cfg, s, w, rate);
    } else if OnWrites(pc) {
      WritesCarry(cfg, s, w);
    } else {
      AroundCarries(cfg, s, w);
    }
  }

  lemma GoCarries(cfg: Config, s: State, w: nat, rate: real)
    requires w < |s.workers| && !s.workers[w].pc.Convert? && Statement(cfg, s, w, rate).Some?
    ensures var t := Statement(cfg, s, w, rate).value;
            && |t.workers| == |s.workers| && t.workers == s.workers[w := t.workers[w]]
            && Carries(s.workers[w], t.workers[w])
  {
    hide Local, MayUpdate, UpdateRecord, CommitRecord, CommitLog, Bump, AfterError, KeyOf;
    ErrorsStopPaying(cfg, s.workers[w]);
    if Local(cfg, s, w, rate).Some? {
      StatementsCarry(cfg, s, w, rate);
    }
  }

  lemma GoKeepsCredits(cfg: Config, prices: Prices, s: State, w: nat, rate: real)
    requires AllWorthAsMuch(cfg, prices, s) && w < |s.workers| && FairStep(cfg, prices, s, Go(w, rate))
    requires Statement(cfg, s, w, rate).Some?
    ensures AllWorthAsMuch(cfg, prices, Statement(cfg, s, w, rate).value)
  {
    hide Local, FairStep, WorthAsMuch;
    if s.workers[w].pc.Convert? {
      ConvertIsFair(cfg, prices, s, w, rate);
    } else {
      hide Statement, Paying;
      GoCarries(cfg, s, w, rate);
      var y := Statement(cfg, s, w, rate).value.workers[w];
      if Paying(y) {
        SameCredit(cfg, prices, s.workers[w], y);
      }
    }
  }

  lemma SameCredit(cfg: Config, prices: Prices, x: Worker, y: Worker)
    requires WorthAsMuch(cfg, prices, x) && y.job == x.job && y.credit == x.credit
    ensures WorthAsMuch(cfg, prices, y)
  {
  }

  lemma StepKeepsCredits(cfg: Config, prices: Prices, s: State, step: Step)
    requires AllWorthAsMuch(cfg, prices, s) && FairStep(cfg, prices, s, step) && Next(cfg, s, step).Some?
    ensures AllWorthAsMuch(cfg, prices, Next(cfg, s, step).value)
  {
    hide Statement, FairStep, WorthAsMuch, AllFree, MayUpdate, UpdateRecord, CommitRecord, Bump;
    if step.Go? {
      GoKeepsCredits(cfg, prices, s, step.w, step.rate);
    }
  }

  /** The worker whose transfer a step commits. */
  function Committing(s: State, step: Step): Option<Worker>
  {
    if (step.Go? || step.LoseAck?) && step.w < |s.workers| && s.workers[step.w].pc.CommitNew?
    then Some(s.workers[step.w])
    else None
  }

  lemma LedgerGrows(cfg: Config, s: State, step: Step)
    requires Next(cfg, s, step).Some?
    ensures var t, x := Next(cfg, s, step).value, Committing(s, step);
            t.db.ledger == if x.Some? then s.db.ledger + [DebitRow(x.value.job), CreditRow(x.value.job, x.value.credit)]
                           else s.db.ledger
  {
    hide Local, AllFree, MayUpdate, Bump, DebitRow, CreditRow;
  }

  /** A pair whose credit is worth its debit adds nothing. */
  lemma PairAddsNothing(cfg: Config, prices: Prices, ledger: seq<LedgerRow>, x: Worker)
    requires WorthAsMuch(cfg, prices, x)
    ensures LedgerWorth(cfg, prices, ledger + [DebitRow(x.job), CreditRow(x.job, x.credit)])
            == LedgerWorth(cfg, prices, ledger)
  {
    hide Analytics.Worth;
    var all, debit, credit := Everything(cfg), DebitRow(x.job), CreditRow(x.job, x.credit);
    Analytics.WorthGrows(all, ledger, debit, cfg.wallets.Keys, prices);
    Analytics.WorthGrows(all, ledger + [debit], credit, cfg.wallets.Keys, prices);
    assert ledger + [debit, credit] == ledger + [debit] + [credit];
  }

  lemma StepKeepsWorth(cfg: Config, prices: Prices, s: State, step: Step)
    requires AllWorthAsMuch(cfg, prices, s) && Next(cfg, s, step).Some?
    ensures LedgerWorth(cfg, prices, Next(cfg, s, step).value.db.ledger) == LedgerWorth(cfg, prices, s.db.ledger)
  {
    hide Next, LedgerWorth, DebitRow, CreditRow, WorthAsMuch;
    LedgerGrows(cfg, s, step);
    var x := Committing(s, step);
    if x.Some? {
      PairAddsNothing(cfg, prices, s.db.ledger, x.value);
    }
  }

  lemma {:induction false} WorthRun(cfg: Config, prices: Prices, r: Run, i: nat)
    requires IsRun(cfg, r) && i < |r.states| && FairRun(cfg, prices, r)
    ensures AllWorthAsMuch(cfg, prices, r.states[i])
    ensures LedgerWorth(cfg, prices, r.states[i].db.ledger) == LedgerWorth(cfg, prices, r.states[0].db.ledger)
  {
    hide Next, FairStep, LedgerWorth, WorthAsMuch;
    if i > 0 {
      WorthRun(cfg, prices, r, i - 1);
      assert Next(cfg, r.states[i - 1], r.steps[i - 1]) == Some(r.states[i]);
      StepKeepsCredits(cfg, prices, r.states[i - 1], r.steps[i - 1]);
      StepKeepsWorth(cfg, prices, r.states[i - 1], r.steps[i - 1]);
    }
  }

  /**
   Worth is conserved: when every conversion gets a rate that agrees with the prices of its two currencies, all
   balances together, each at its currency's price, are worth in every reachable state what they were at first.
   */
  lemma WorthIsConserved(cfg: Config, prices: Prices, r: Run, i: nat)
    requires IsRun(cfg, r) && i < |r.states| && FairRun(cfg, prices, r)
    ensures Analytics.Worth(Everything(cfg), r.states[i].db.ledger, cfg.wallets.Keys, prices)
            == Analytics.Worth(Everything(cfg), r.states[0].db.ledger, cfg.wallets.Keys, prices)
  {
    hide IsRun, FairRun, Analytics.Worth;
    WorthRun(cfg, prices, r, i);
  }
}
