/** What holds in every state any run can reach. */
module CustodyRuns {
  import opened Tables
  import opened WalletFees
  import opened Custody
  import opened CustodySteps
  import opened WithdrawalSteps
  import Deposits
  import EscrowService
  import FeeService
  import SignerRules
  import Withdrawals

  ghost predicate GoodRun(chain: string -> Sighting, ops: seq<Op>) {
    forall i :: 0 <= i < |ops| ==> Admissible(chain, ops[i])
  }

  lemma SettingsKeep(chain: string -> Sighting, s: Snapshot, t: Snapshot)
    requires Inv(chain, s) && t == s.(tenants := t.tenants, frozen := t.frozen)
    ensures Inv(chain, t)
  {
    hide FeeService.Money, QuantizeAsset, Exact;
    forall d: nat | d < |s.deposits| ensures DepositOk(chain, t, d) {
      assert DepositOk(chain, s, d);
    }
    forall e: nat | e < |s.escrows| ensures EscrowOk(t, e) {
      assert EscrowOk(s, e);
      EscrowKept(s, t, e);
    }
    forall w: nat | w < |s.withdrawals| ensures WithdrawalOk(t, w) {
      assert WithdrawalOk(s, w);
    }
    forall i | 0 <= i < |s.ledger| ensures EntryOk(t, t.ledger[i]) {
      assert EntryOk(s, s.ledger[i]);
    }
  }

  lemma StepKeeps(cfg: Settings, chain: string -> Sighting, s: Snapshot, op: Op)
    requires Inv(chain, s) && GoodSettings(cfg) && Admissible(chain, op)
    ensures Inv(chain, Step(cfg, s, op))
  {
    hide Inv;
    hide Deposits.AfterCredit, EscrowService.AfterCreate, EscrowService.AfterAccept, EscrowService.AfterRelease;
    hide EscrowService.AfterDispute, EscrowService.AfterCancel, EscrowService.AfterRequestCancel;
    hide EscrowService.AfterRespondCancel, EscrowService.AfterResolve, Withdrawals.AfterRequest;
    hide SignerRules.AfterExecute, SignerRules.AfterReconcile, Withdrawals.AfterAdminAction;
    match op {
      case SetTenant(botId, owner, pct) => SettingsKeep(chain, s, Step(cfg, s, op));
      case SetFrozen(account, isFrozen) => SettingsKeep(chain, s, Step(cfg, s, op));
      case Credit(sighting, key, confirmations, finalized) => CreditKeeps(cfg, chain, s, key, confirmations, finalized);
      case Create(botId, buyer, seller, asset, amount, description) =>
        CreateKeeps(cfg, chain, s, botId, buyer, seller, asset, amount, description);
      case Accept(e, actor) => AcceptKeeps(chain, s, e, actor);
      case Release(e, actor) => ReleaseKeeps(cfg, chain, s, e, actor);
      case Dispute(e, actor) => DisputeKeeps(chain, s, e, actor);
      case Cancel(e, actor) => CancelKeeps(chain, s, e, actor);
      case RequestCancel(e, actor) => RequestCancelKeeps(chain, s, e, actor);
      case RespondCancel(e, actor, accept) => RespondCancelKeeps(chain, s, e, actor, accept);
      case Resolve(e, actor, resolution) => ResolveKeeps(cfg, chain, s, e, actor, resolution);
      case Request(user, asset, amount, destination, digest, now) =>
        RequestKeeps(cfg, chain, s, user, asset, amount, destination, digest, now);
      case Execute(w, reply) =>
        if w < |s.withdrawals| && s.withdrawals[w].status == WPending { ExecuteKeeps(chain, s, w, reply); }
      case Reconcile(w, reply) =>
        if w < |s.withdrawals| && Unresolved(s.withdrawals[w].status) { ReconcileKeeps(chain, s, w, reply); }
      case AdminAction(w, requeue) => AdminActionKeeps(chain, s, w, requeue);
    }
  }

  lemma EmptyInv(chain: string -> Sighting)
    ensures Inv(chain, EMPTY)
  {
  }

  lemma {:induction false} RunInv(plan: Plan, chain: string -> Sighting, ops: seq<Op>)
    requires GoodPlan(plan) && GoodRun(chain, ops)
    ensures Inv(chain, Run(plan, ops))
  {
    hide Inv, Step;
    if ops == [] {
      EmptyInv(chain);
    } else {
      var n := |ops| - 1;
      assert forall i :: 0 <= i < n ==> ops[..n][i] == ops[i];
      RunInv(plan, chain, ops[..n]);
      StepKeeps(plan(n), chain, Run(plan, ops[..n]), ops[n]);
    }
  }

  /** s is the state after some run of admissible operations, whatever the settings were at each of them. */
  ghost predicate Reachable(chain: string -> Sighting, s: Snapshot) {
    exists plan: Plan, ops: seq<Op> :: GoodPlan(plan) && GoodRun(chain, ops) && Run(plan, ops) == s
  }

  lemma ReachableInv(chain: string -> Sighting, s: Snapshot)
    requires Reachable(chain, s)
    ensures Inv(chain, s)
  {
    hide Inv, Run, GoodPlan;
    var plan: Plan, ops: seq<Op> :| GoodPlan(plan) && GoodRun(chain, ops) && Run(plan, ops) == s;
    RunInv(plan, chain, ops);
  }

  lemma RunReaches(plan: Plan, chain: string -> Sighting, ops: seq<Op>)
    requires GoodPlan(plan) && GoodRun(chain, ops)
    ensures Reachable(chain, Run(plan, ops))
  {
    hide Run, GoodPlan;
  }

  /** Settings that are only in force after the last operation do not matter. */
  lemma {:induction false} SamePlan(plan: Plan, other: Plan, ops: seq<Op>)
    requires forall i: nat :: i < |ops| ==> plan(i) == other(i)
    ensures Run(plan, ops) == Run(other, ops)
  {
    hide Step;
    if ops != [] {
      SamePlan(plan, other, ops[..|ops| - 1]);
    }
  }

  /** One more operation, under any settings. */
  lemma OneMoreOp(cfg: Settings, chain: string -> Sighting, s: Snapshot, op: Op)
    requires GoodSettings(cfg) && Reachable(chain, s) && Admissible(chain, op)
    ensures Reachable(chain, Step(cfg, s, op))
  {
    hide Step, GoodSettings;
    var plan: Plan, ops: seq<Op> :| GoodPlan(plan) && GoodRun(chain, ops) && Run(plan, ops) == s;
    var more, next: Plan := ops + [op], (i: nat) => if i == |ops| then cfg else plan(i);
    assert more[..|ops|] == ops;
    SamePlan(plan, next, ops);
    assert GoodPlan(next) && GoodRun(chain, more) && Run(next, more) == Step(cfg, s, op);
  }

  /** At the start nothing is there. */
  lemma EmptyReachable(cfg: Settings, chain: string -> Sighting)
    requires GoodSettings(cfg)
    ensures Reachable(chain, EMPTY)
  {
    assert GoodPlan(Fixed(cfg)) && GoodRun(chain, []) && Run(Fixed(cfg), []) == EMPTY;
  }
}
