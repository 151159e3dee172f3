/** Exactly-once crediting over every run, however often and in whatever order a deposit is sighted. */
module DepositRuns {
  import opened Tables
  import opened LedgerService
  import opened WalletFees
  import opened Custody
  import opened CustodyRuns
  import Deposits
  import Lifecycles

  /** A sighting of the key as finalized is among the first n operations. */
  predicate FinalizedBefore(ops: seq<Op>, key: string, n: nat)
    requires n <= |ops|
  {
    exists i :: 0 <= i < n && ops[i].Credit? && ops[i].key == key && ops[i].finalized
  }

  /** What a deposit on the chain should give an account: the net amount to its user, the fee to the platform. */
  function Due(cfg: Settings, c: Sighting, payee: Payee, asset: Asset): real {
    var gross := QuantizeAsset(c.asset, c.amount);
    if c.asset != asset then 0.0
    else match payee
      case One(User(id)) => if id == c.user then DepositNetCredit(cfg, asset, gross) else 0.0
      case One(PlatformRevenue) => if gross > 0.0 then DepositPlatformFee(cfg, asset, gross) else 0.0
      case One(BotOwnerRevenue(_)) => 0.0
      case Everyone => if gross > 0.0 then gross else 0.0
  }

  /** The same for all distinct keys finalized in a run. */
  function DueOf(plan: Plan, chain: string -> Sighting, ops: seq<Op>, payee: Payee, asset: Asset): real {
    if ops == [] then 0.0
    else
      var n := |ops| - 1;
      DueOf(plan, chain, ops[..n], payee, asset) +
      if ops[n].Credit? && ops[n].finalized && !FinalizedBefore(ops, ops[n].key, n)
      then Due(plan(n), chain(ops[n].key), payee, asset) else 0.0
  }

  /** Net and fee are all of the gross amount. */
  lemma DueSplit(cfg: Settings, c: Sighting)
    ensures var gross := QuantizeAsset(c.asset, c.amount);
            Due(cfg, c, One(User(c.user)), c.asset) + Due(cfg, c, One(PlatformRevenue), c.asset) ==
            Due(cfg, c, Everyone, c.asset) == (if gross > 0.0 then gross else 0.0)
  {
    hide QuantizeAsset, DepositNetCredit, DepositPlatformFee;
    DepositSplit(cfg, c.asset, c.amount);
  }

  ghost predicate KeyCredited(s: Snapshot, key: string) {
    exists d :: 0 <= d < |s.deposits| && s.deposits[d].uniqueKey == key && s.deposits[d].status == Credited
  }

  /** Credits is decided by whether the key was credited before. */
  lemma CreditsOnce(chain: string -> Sighting, s: Snapshot, key: string, finalized: bool)
    requires DepositsOk(chain, s)
    ensures Deposits.Credits(s.deposits, key, finalized) <==> finalized && !KeyCredited(s, key)
  {
    hide QuantizeAsset;
    var id := Deposits.Target(s.deposits, key);
    if id < |s.deposits| {
      assert DepositOk(chain, s, id);
    }
  }

  lemma CreditStep(cfg: Settings, chain: string -> Sighting, s: Snapshot, key: string, confirmations: int,
                   finalized: bool, other: string)
    requires DepositsOk(chain, s)
    ensures var c := chain(key);
            var t := Deposits.AfterCredit(cfg, s, c.user, c.asset, c.amount, key, confirmations, finalized);
            KeyCredited(t, other) <==> KeyCredited(s, other) || (other == key && finalized)
  {
    hide QuantizeAsset, DepositNetCredit, DepositPlatformFee, Deposits.Booked, Deposits.Lookup, DepositsOk;
    var c, id := chain(key), Deposits.Target(s.deposits, key);
    var t := Deposits.AfterCredit(cfg, s, c.user, c.asset, c.amount, key, confirmations, finalized);
    CreditsOnce(chain, s, key, finalized);
    var row := Deposits.SightedRow(cfg, s.deposits, c.user, c.asset, c.amount, key, confirmations, finalized);
    assert t.deposits[id] == row && row.uniqueKey == key;
    if KeyCredited(s, other) {
      var d :| 0 <= d < |s.deposits| && s.deposits[d].uniqueKey == other && s.deposits[d].status == Credited;
      assert t.deposits[d].uniqueKey == other && t.deposits[d].status == Credited;
    }
    if KeyCredited(t, other) {
      var d :| 0 <= d < |t.deposits| && t.deposits[d].uniqueKey == other && t.deposits[d].status == Credited;
      assert d != id ==> t.deposits[d] == s.deposits[d];
    }
  }

  /** A key is credited in the tables exactly when the run holds a finalized sighting of it. */
  lemma {:induction false} CreditedIffFinalized(plan: Plan, chain: string -> Sighting, ops: seq<Op>, key: string)
    requires GoodPlan(plan) && GoodRun(chain, ops)
    ensures KeyCredited(Run(plan, ops), key) <==> FinalizedBefore(ops, key, |ops|)
  {
    hide Inv, Step, KeyCredited;
    if ops == [] {
      NothingCredited(key);
    } else {
      var n := |ops| - 1;
      assert forall i :: 0 <= i < n ==> ops[..n][i] == ops[i];
      CreditedIffFinalized(plan, chain, ops[..n], key);
      KeyStep(plan, chain, ops[..n], ops[n], key);
    }
  }

  lemma NothingCredited(key: string)
    ensures !KeyCredited(EMPTY, key)
  {
  }

  lemma KeyStep(plan: Plan, chain: string -> Sighting, before: seq<Op>, op: Op, key: string)
    requires GoodPlan(plan) && GoodRun(chain, before) && Admissible(chain, op)
    ensures var s := Run(plan, before);
            KeyCredited(Step(plan(|before|), s, op), key) <==>
              KeyCredited(s, key) || (op.Credit? && op.key == key && op.finalized)
  {
    hide LedgerOk, EscrowsOk, WithdrawalsOk, NoUncheckedDebit, DepositsOk, Deposits.AfterCredit, Run;
    var s := Run(plan, before);
    RunInv(plan, chain, before);
    if op.Credit? {
      CreditStep(plan(|before|), chain, s, op.key, op.confirmations, op.finalized, key);
    } else {
      hide Step;
      Lifecycles.StepGrows(plan(|before|), s, op);
    }
  }

  /** What a crediting call books for an account. */
  lemma BookedDue(cfg: Settings, c: Sighting, id: nat, payee: Payee, asset: Asset)
    ensures var gross := QuantizeAsset(c.asset, c.amount);
            var es := Deposits.CreditEntries(c.user, c.asset, DepositNetCredit(cfg, c.asset, gross),
                                             DepositPlatformFee(cfg, c.asset, gross), id);
            Sum(OfDeposits(payee, asset), es) == Due(cfg, c, payee, asset)
  {
    hide QuantizeAsset, DepositNetCredit, DepositPlatformFee;
    var gross := QuantizeAsset(c.asset, c.amount);
    DepositSplit(cfg, c.asset, c.amount);
    SumFew(OfDeposits(payee, asset),
           Deposits.CreditEntries(c.user, c.asset, DepositNetCredit(cfg, c.asset, gross),
                                  DepositPlatformFee(cfg, c.asset, gross), id));
  }

  lemma CreditDue(cfg: Settings, chain: string -> Sighting, s: Snapshot, op: Op, payee: Payee, asset: Asset)
    requires DepositsOk(chain, s) && Admissible(chain, op) && op.Credit?
    ensures Sum(OfDeposits(payee, asset), Step(cfg, s, op).ledger) == Sum(OfDeposits(payee, asset), s.ledger) +
            if op.finalized && !KeyCredited(s, op.key) then Due(cfg, chain(op.key), payee, asset) else 0.0
  {
    hide DepositsOk, Due, KeyCredited, QuantizeAsset, DepositNetCredit, DepositPlatformFee;
    hide Deposits.Credits, Deposits.CreditEntries, Deposits.Target, Deposits.SightedRow;
    var c, q := chain(op.key), OfDeposits(payee, asset);
    CreditsOnce(chain, s, op.key, op.finalized);
    BookedDue(cfg, c, Deposits.Target(s.deposits, op.key), payee, asset);
    SumConcat(q, s.ledger, Deposits.Booked(cfg, s.deposits, c.user, c.asset, c.amount, op.key, op.finalized));
  }

  lemma OtherDue(cfg: Settings, s: Snapshot, op: Op, payee: Payee, asset: Asset)
    requires !op.Credit?
    ensures Sum(OfDeposits(payee, asset), Step(cfg, s, op).ledger) == Sum(OfDeposits(payee, asset), s.ledger)
  {
    hide Step;
    Lifecycles.StepGrows(cfg, s, op);
    var q, es := OfDeposits(payee, asset), Step(cfg, s, op).ledger[|s.ledger|..];
    assert Step(cfg, s, op).ledger == s.ledger + es;
    SumConcat(q, s.ledger, es);
    SumNone(q, es);
  }

  lemma StepDue(plan: Plan, chain: string -> Sighting, before: seq<Op>, op: Op, payee: Payee, asset: Asset)
    requires GoodPlan(plan) && GoodRun(chain, before) && Admissible(chain, op)
    ensures var s := Run(plan, before);
            Sum(OfDeposits(payee, asset), Step(plan(|before|), s, op).ledger) ==
              Sum(OfDeposits(payee, asset), s.ledger) +
            if op.Credit? && op.finalized && !KeyCredited(s, op.key)
              then Due(plan(|before|), chain(op.key), payee, asset)
              else 0.0
  {
    hide LedgerOk, EscrowsOk, WithdrawalsOk, NoUncheckedDebit, DepositsOk, Run, Due, KeyCredited, Step;
    RunInv(plan, chain, before);
    if op.Credit? {
      CreditDue(plan(|before|), chain, Run(plan, before), op, payee, asset);
    } else {
      OtherDue(plan(|before|), Run(plan, before), op, payee, asset);
    }
  }

  /**
   Exactly once: in every run the deposit entries of an account add up to what the distinct finalized
   keys are worth, no matter how often each was sighted, re-scanned or re-finalized.
   */
  lemma {:induction false} DepositsExactlyOnce(plan: Plan, chain: string -> Sighting, ops: seq<Op>, payee: Payee,
                                               asset: Asset)
    requires GoodPlan(plan) && GoodRun(chain, ops)
    ensures Sum(OfDeposits(payee, asset), Run(plan, ops).ledger) == DueOf(plan, chain, ops, payee, asset)
  {
    hide Step, Due, KeyCredited;
    if ops != [] {
      var n := |ops| - 1;
      assert forall i :: 0 <= i < n ==> ops[..n][i] == ops[i];
      DepositsExactlyOnce(plan, chain, ops[..n], payee, asset);
      StepDue(plan, chain, ops[..n], ops[n], payee, asset);
      if ops[n].Credit? {
        CreditedIffFinalized(plan, chain, ops[..n], ops[n].key);
      }
    }
  }

  /**
   A credited row that is sighted again with another amount is overwritten, but the ledger is not:
   row and ledger agree afterwards exactly when the two amounts quantize to the same value.
   */
  lemma ResightingRewritesRowOnly(cfg: Settings, chain: string -> Sighting, s: Snapshot, user: int, asset: Asset,
                                  amount: real,
                                  key: string, confirmations: int, finalized: bool)
    requires Inv(chain, s) && KeyCredited(s, key) && QuantizeAsset(asset, amount) > 0.0
    ensures var id := Deposits.Target(s.deposits, key); id < |s.deposits|
    ensures var t, id := Deposits.AfterCredit(cfg, s, user, asset, amount, key, confirmations, finalized),
            Deposits.Target(s.deposits, key);
            && t.ledger == s.ledger && t.deposits[id].amount == QuantizeAsset(asset, amount)
            && (Sum(OfRow(DepositRef, id), t.ledger) == DepositFootprint(t.deposits[id]) <==>
                QuantizeAsset(asset, amount) == s.deposits[id].amount)
  {
    hide QuantizeAsset, DepositNetCredit, DepositPlatformFee, LedgerOk, EscrowsOk, WithdrawalsOk, NoUncheckedDebit;
    var id := Deposits.Target(s.deposits, key);
    var d :| 0 <= d < |s.deposits| && s.deposits[d].uniqueKey == key && s.deposits[d].status == Credited;
    CreditsOnce(chain, s, key, finalized);
    assert DepositOk(chain, s, id);
    assert d == id;
  }
}
