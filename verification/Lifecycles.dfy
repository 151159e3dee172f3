/** What no later operation can undo: booked entries, closed escrows, finished withdrawals. */
module Lifecycles {
  import opened Tables
  import opened LedgerService
  import opened WalletFees
  import opened ProviderReplies
  import opened Custody
  import CustodyEquation
  import CustodyRuns
  import CustodySteps
  import Deposits
  import EscrowLocks
  import EscrowService
  import FeeService
  import SignerRules
  import Text
  import Withdrawals

  const SETTLEMENT := {WITHDRAWAL_PLATFORM_FEE, WITHDRAWAL_NETWORK_FEE, WITHDRAWAL_NETWORK_FEE_REFUND,
                       WITHDRAWAL_NETWORK_FEE_ADJUSTMENT}
  const ENDING := SETTLEMENT + {WITHDRAWAL_RELEASE}

  /** Between two ledgers only entries of one withdrawal were added, all of the given kinds. */
  ghost predicate Added(earlier: seq<Entry>, later: seq<Entry>, w: nat, kinds: set<EntryType>) {
    && earlier <= later
    && forall i :: |earlier| <= i < |later| ==>
       later[i].refType == WithdrawalRef && later[i].refId == w && later[i].entryType in kinds
  }

  /** What a withdrawal was requested for never changes. */
  predicate SameOrder(earlier: WithdrawalRow, row: WithdrawalRow) {
    row == earlier.(actualFee := row.actualFee, settled := row.settled, status := row.status, txid := row.txid,
                    providerRef := row.providerRef)
  }

  /** Only row w of the withdrawals may differ; every other table is the same. */
  ghost predicate OnlyWithdrawal(s: Snapshot, t: Snapshot, w: nat) {
    && t == s.(ledger := t.ledger, withdrawals := t.withdrawals)
    && |t.withdrawals| == |s.withdrawals|
    && (w < |s.withdrawals| ==> SameOrder(s.withdrawals[w], t.withdrawals[w]))
    && forall v :: 0 <= v < |s.withdrawals| && v != w ==> t.withdrawals[v] == s.withdrawals[v]
  }

  lemma BroadcastedAdds(s: Snapshot, w: nat, txid: string, ref: string, force: bool, status: WithdrawalStatus)
    requires w < |s.withdrawals|
    ensures var row := s.withdrawals[w];
            var booked := Withdrawals.WithRow(Withdrawals.AfterBookFee(s, w), w,
                            row.(status := status, txid := Some(txid),
                                 providerRef := Withdrawals.Coalesce(row.providerRef, ref)));
            var t := Withdrawals.AfterSettle(booked, w, force);
            Added(s.ledger, t.ledger, w, SETTLEMENT) && OnlyWithdrawal(s, t, w) && t.withdrawals[w].status == status
  {
    hide QuantizeAsset;
  }

  lemma OnlyTwice(s: Snapshot, m: Snapshot, t: Snapshot, w: nat)
    requires OnlyWithdrawal(s, m, w) && OnlyWithdrawal(m, t, w)
    ensures OnlyWithdrawal(s, t, w)
  {
    assert forall v :: 0 <= v < |s.withdrawals| && v != w ==> m.withdrawals[v] == s.withdrawals[v];
  }

  lemma RecordAdds(s: Snapshot, w: nat, result: ExecutionResult)
    requires w < |s.withdrawals| && Withdrawals.AfterRecordResult(s, w, s.withdrawals[w].key, result).Ok?
    ensures var t := Withdrawals.AfterRecordResult(s, w, s.withdrawals[w].key, result).value;
            t.ledger == s.ledger && OnlyWithdrawal(s, t, w) && t.withdrawals[w].status == s.withdrawals[w].status
  {
    hide QuantizeAsset, Withdrawals.TxidSane, Withdrawals.RefTaken;
  }

  lemma AcceptedAdds(s: Snapshot, w: nat, result: ExecutionResult, mapped: SignerRules.Mapped)
    requires w < |s.withdrawals| && mapped.Proceed?
    ensures var t := SignerRules.AfterAccepted(s, w, result, mapped);
            && Added(s.ledger, t.ledger, w, SETTLEMENT) && OnlyWithdrawal(s, t, w)
            && (s.withdrawals[w].status != Failed ==> t.withdrawals[w].status != Failed)
  {
    hide Withdrawals.AfterSettle, Withdrawals.AfterBookFee, Withdrawals.AfterRecordResult;
    var recorded := Withdrawals.AfterRecordResult(s, w, s.withdrawals[w].key, result);
    if recorded.Ok? {
      var t := recorded.value;
      RecordAdds(s, w, result);
      BroadcastedAdds(t, w, mapped.txid, result.providerRef, mapped.status == StConfirmed,
                      if mapped.status == StConfirmed then Confirmed else Broadcasted);
      OnlyTwice(s, t, SignerRules.AfterMark(t, w, mapped, result.providerRef), w);
    }
  }

  lemma NothingReleased(earlier: seq<Entry>, later: seq<Entry>, w: nat)
    requires Added(earlier, later, w, SETTLEMENT)
    ensures Count(OfRowType(WithdrawalRef, w, WITHDRAWAL_RELEASE), later) ==
            Count(OfRowType(WithdrawalRef, w, WITHDRAWAL_RELEASE), earlier)
  {
    var q, es := OfRowType(WithdrawalRef, w, WITHDRAWAL_RELEASE), later[|earlier|..];
    assert later == earlier + es;
    CountConcat(q, earlier, es);
    CountNone(q, es);
  }

  /** Whatever the provider answers, even a rejection, reconciling a row releases nothing and fails nothing. */
  lemma ReconcileNeverReleases(s: Snapshot, w: nat, reply: Option<Body>)
    requires w < |s.withdrawals|
    ensures var t := SignerRules.AfterReconcile(s, w, reply);
            && Added(s.ledger, t.ledger, w, SETTLEMENT) && OnlyWithdrawal(s, t, w)
            && (s.withdrawals[w].status != Failed ==> t.withdrawals[w].status != Failed)
            && Count(OfRowType(WithdrawalRef, w, WITHDRAWAL_RELEASE), t.ledger) ==
               Count(OfRowType(WithdrawalRef, w, WITHDRAWAL_RELEASE), s.ledger)
  {
    hide ParseResult, SignerRules.AfterAccepted;
    var t := SignerRules.AfterReconcile(s, w, reply);
    if reply.Some? && ParseResult(reply.value).Some? {
      var result := ParseResult(reply.value).value;
      if SignerRules.MapResult(result).Proceed? {
        AcceptedAdds(s, w, result, SignerRules.MapResult(result));
      }
    }
    hide SignerRules.AfterReconcile;
    NothingReleased(s.ledger, t.ledger, w);
  }

  lemma ExecuteAdds(s: Snapshot, w: nat, reply: Option<Body>)
    requires w < |s.withdrawals|
    ensures var t := SignerRules.AfterExecute(s, w, reply);
            Added(s.ledger, t.ledger, w, ENDING) && OnlyWithdrawal(s, t, w)
  {
    hide ParseResult, SignerRules.AfterAccepted;
    if reply.Some? && ParseResult(reply.value).Some? {
      var result := ParseResult(reply.value).value;
      if SignerRules.MapResult(result).Proceed? {
        AcceptedAdds(s, w, result, SignerRules.MapResult(result));
      }
    }
  }

  // ----- the row an operation is about

  /** The one table row an operation may change or book for, if any. */
  function Subject(s: Snapshot, op: Op): Option<(RefType, nat)> {
    match op
    case SetTenant(_, _, _) => None
    case SetFrozen(_, _) => None
    case Credit(_, key, _, _) => Some((DepositRef, Deposits.Target(s.deposits, key)))
    case Create(_, _, _, _, _, _) => Some((EscrowRef, |s.escrows|))
    case Accept(e, _) => Some((EscrowRef, e))
    case Release(e, _) => Some((EscrowRef, e))
    case Dispute(e, _) => Some((EscrowRef, e))
    case Cancel(e, _) => Some((EscrowRef, e))
    case RequestCancel(e, _) => Some((EscrowRef, e))
    case RespondCancel(e, _, _) => Some((EscrowRef, e))
    case Resolve(e, _, _) => Some((EscrowRef, e))
    case Request(_, _, _, _, _, _) => Some((WithdrawalRef, |s.withdrawals|))
    case Execute(w, _) => Some((WithdrawalRef, w))
    case Reconcile(w, _) => Some((WithdrawalRef, w))
    case AdminAction(w, _) => Some((WithdrawalRef, w))
  }

  /** The ledger only grows, only by entries of one row, and fee adjustments are only booked for withdrawals. */
  ghost predicate Grows(earlier: seq<Entry>, later: seq<Entry>, subject: Option<(RefType, nat)>) {
    && earlier <= later
    && forall i :: |earlier| <= i < |later| ==>
      && subject == Some((later[i].refType, later[i].refId))
      && (later[i].entryType == WITHDRAWAL_NETWORK_FEE_ADJUSTMENT ==> later[i].refType == WithdrawalRef)
  }

  /** What an operation on escrow e may do: nothing at all once the escrow is closed. */
  ghost predicate EscrowOnly(s: Snapshot, t: Snapshot, e: nat) {
    && Grows(s.ledger, t.ledger, Some((EscrowRef, e)))
    && t.deposits == s.deposits && t.withdrawals == s.withdrawals && t.tenants == s.tenants && t.frozen == s.frozen
    && |t.escrows| == |s.escrows|
    && (forall i: nat :: i < |s.escrows| && i != e ==> t.escrows[i] == s.escrows[i])
    && (e < |s.escrows| && !OpenStatus(s.escrows[e].status) ==> t == s)
    && (e < |s.escrows| ==> t.escrows[e] == s.escrows[e].(status := t.escrows[e].status))
  }

  lemma EscrowTalks(cfg: Settings, s: Snapshot, op: Op)
    requires op.Accept? || op.Dispute? || op.RequestCancel? || op.RespondCancel?
    ensures EscrowOnly(s, Step(cfg, s, op), op.e)
    ensures op.Accept? || op.Dispute? ==> Step(cfg, s, op).requests == s.requests
  {
    if op.RespondCancel? && EscrowService.AfterRespondCancel(s, op.e, op.actor, op.accept).Ok? && op.accept {
      var req := s.requests[op.e];
      MutualMoves(s, op.e, req.requester, op.actor);
    }
    hide EscrowService.AfterCancelMutual;
  }

  lemma MutualMoves(s: Snapshot, e: nat, requester: int, responder: int)
    requires EscrowService.AfterCancelMutual(s, e, requester, responder).Ok?
    ensures EscrowOnly(s, EscrowService.AfterCancelMutual(s, e, requester, responder).value, e)
  {
  }

  lemma EscrowCloses(cfg: Settings, s: Snapshot, op: Op)
    requires op.Release? || op.Cancel? || op.Resolve?
    ensures EscrowOnly(s, Step(cfg, s, op), op.e) && Step(cfg, s, op).requests == s.requests
    ensures !op.Cancel? && Step(cfg, s, op) != s ==>
            op.e < |s.escrows| && Step(cfg, s, op).escrows[op.e].status == Completed
  {
    hide FeeService.CalculateTotalFees, EscrowService.Resolved, EscrowOnly;
    match op {
      case Release(e, actor) =>
        if EscrowService.AfterRelease(cfg, s, e, actor).Ok? {
          PayoutMoves(cfg, s, e);
          StatusOnly(s, EscrowService.AfterPayout(cfg, s, e).value, e, Completed, s.disputes);
        } else {
          NothingMoves(s, e);
        }
      case Cancel(e, actor) =>
        if EscrowService.AfterCancel(s, e, actor).Ok? {
          RefundMoves(s, e);
          StatusOnly(s, EscrowLocks.AfterUnlock(s, e, EscrowLocks.RefundEntries(s, e)).value, e, Cancelled, s.disputes);
        } else {
          NothingMoves(s, e);
        }
      case Resolve(e, actor, resolution) => ResolveMoves(cfg, s, e, actor, resolution);
    }
  }

  /** Unlocking with entries of the escrow: only ledger and locks move. */
  ghost predicate LockMoved(s: Snapshot, t: Snapshot, e: nat) {
    t == s.(ledger := t.ledger, locks := t.locks) && Grows(s.ledger, t.ledger, Some((EscrowRef, e)))
  }

  lemma NothingMoves(s: Snapshot, e: nat)
    ensures EscrowOnly(s, s, e)
  {
  }

  lemma StatusOnly(s: Snapshot, moved: Snapshot, e: nat, status: EscrowStatus, disputes: seq<DisputeRow>)
    requires e < |s.escrows| && OpenStatus(s.escrows[e].status) && LockMoved(s, moved, e)
    ensures EscrowOnly(s, EscrowService.WithStatus(moved, e, status).(disputes := disputes), e)
  {
  }

  lemma UnlockMoves(s: Snapshot, e: nat, es: seq<Entry>)
    requires ForEscrow(es, e) && EscrowLocks.AfterUnlock(s, e, es).Ok?
    ensures LockMoved(s, EscrowLocks.AfterUnlock(s, e, es).value, e)
  {
  }

  lemma PayoutMoves(cfg: Settings, s: Snapshot, e: nat)
    requires e < |s.escrows| && EscrowService.AfterPayout(cfg, s, e).Ok?
    ensures LockMoved(s, EscrowService.AfterPayout(cfg, s, e).value, e)
  {
    hide FeeService.CalculateTotalFees;
  }

  lemma RefundMoves(s: Snapshot, e: nat)
    requires EscrowLocks.AfterUnlock(s, e, EscrowLocks.RefundEntries(s, e)).Ok?
    ensures LockMoved(s, EscrowLocks.AfterUnlock(s, e, EscrowLocks.RefundEntries(s, e)).value, e)
  {
  }

  lemma ResolveMoves(cfg: Settings, s: Snapshot, e: nat, admin: int, resolution: Resolution)
    ensures var t := OrSame(s, EscrowService.AfterResolve(cfg, s, e, admin, resolution));
            EscrowOnly(s, t, e) && t.requests == s.requests
    ensures var t := OrSame(s, EscrowService.AfterResolve(cfg, s, e, admin, resolution));
            t != s ==> e < |s.escrows| && e < |t.escrows| && t.escrows[e].status == Completed
  {
    hide FeeService.CalculateTotalFees, EscrowService.SplitEntries, EscrowService.Resolved, EscrowService.AfterPayout;
    hide EscrowLocks.AfterUnlock, EscrowLocks.RefundEntries, EscrowOnly;
    if EscrowService.AfterResolve(cfg, s, e, admin, resolution).Ok? {
      match resolution {
        case ReleaseSeller =>
          PayoutMoves(cfg, s, e);
          StatusOnly(s, EscrowService.AfterPayout(cfg, s, e).value, e, Completed,
                     EscrowService.Resolved(s.disputes, e, resolution));
        case RefundBuyer =>
          RefundMoves(s, e);
          StatusOnly(s, EscrowLocks.AfterUnlock(s, e, EscrowLocks.RefundEntries(s, e)).value, e, Completed,
                     EscrowService.Resolved(s.disputes, e, resolution));
        case Split(pct) =>
          var es := EscrowService.SplitEntries(cfg, s, e, pct).value;
          SplitGrows(cfg, s, e, pct);
          UnlockMoves(s, e, es);
          StatusOnly(s, EscrowLocks.AfterUnlock(s, e, es).value, e, Completed,
                     EscrowService.Resolved(s.disputes, e, resolution));
      }
    } else {
      NothingMoves(s, e);
    }
  }

  ghost predicate ForEscrow(es: seq<Entry>, e: nat) {
    forall i :: 0 <= i < |es| ==>
      es[i].refType == EscrowRef && es[i].refId == e && es[i].entryType != WITHDRAWAL_NETWORK_FEE_ADJUSTMENT
  }

  lemma SplitGrows(cfg: Settings, s: Snapshot, e: nat, pct: real)
    requires e < |s.escrows|
    ensures var r := EscrowService.SplitEntries(cfg, s, e, pct); r.Ok? ==> ForEscrow(r.value, e)
  {
    hide FeeService.CalculateTotalFees, EscrowService.SellerPart;
  }

  lemma OtherGrows(cfg: Settings, s: Snapshot, op: Op)
    requires op.SetTenant? || op.SetFrozen? || op.Credit? || op.Create? || op.Request?
    ensures var t := Step(cfg, s, op);
            && Grows(s.ledger, t.ledger, Subject(s, op))
            && s.escrows <= t.escrows && s.withdrawals <= t.withdrawals && t.requests == s.requests
            && (!op.Request? ==> t.withdrawals == s.withdrawals) && (!op.Credit? ==> t.deposits == s.deposits)
            && (!op.SetFrozen? ==> t.frozen == s.frozen) && (!op.SetTenant? ==> t.tenants == s.tenants)
  {
    hide FeeService.CalculateTotalFees, QuantizeAsset, DepositNetCredit, DepositPlatformFee, Deposits.Target;
    hide Withdrawals.Refusal;
    hide Deposits.SightedRow, Withdrawals.NewRow, FeeService.ValidateBotExtraFeePercent;
  }

  lemma WithdrawalGrows(cfg: Settings, s: Snapshot, op: Op)
    requires op.Execute? || op.Reconcile? || op.AdminAction?
    ensures var t := Step(cfg, s, op);
            && Grows(s.ledger, t.ledger, Subject(s, op)) && OnlyWithdrawal(s, t, op.w)
            && (op.w < |s.withdrawals| && !Withdrawals.InFlight(s.withdrawals[op.w].status) ==> t == s)
  {
    hide SignerRules.AfterExecute, SignerRules.AfterReconcile;
    if op.w < |s.withdrawals| {
      match op {
        case Execute(w, reply) => if s.withdrawals[w].status == WPending { ExecuteAdds(s, w, reply); }
        case Reconcile(w, reply) => if Unresolved(s.withdrawals[w].status) { ReconcileNeverReleases(s, w, reply); }
        case AdminAction(w, requeue) =>
      }
    }
  }

  // ----- runs

  /** Closed escrows and finished withdrawals. */
  predicate Final(s: Snapshot, table: RefType, id: nat) {
    match table
    case DepositRef => false
    case EscrowRef => id < |s.escrows| && !OpenStatus(s.escrows[id].status)
    case WithdrawalRef => id < |s.withdrawals| && !Withdrawals.InFlight(s.withdrawals[id].status)
  }

  ghost predicate Untouched(s: Snapshot, t: Snapshot, table: RefType, id: nat) {
    && s.ledger <= t.ledger
    && (forall i :: |s.ledger| <= i < |t.ledger| ==> !(t.ledger[i].refType == table && t.ledger[i].refId == id))
    && (table == EscrowRef ==> id < |s.escrows| && id < |t.escrows| && t.escrows[id] == s.escrows[id])
    && (table == WithdrawalRef ==>
        id < |s.withdrawals| && id < |t.withdrawals| && t.withdrawals[id] == s.withdrawals[id])
  }

  lemma FinalStep(cfg: Settings, s: Snapshot, op: Op, table: RefType, id: nat)
    requires Final(s, table, id)
    ensures Untouched(s, Step(cfg, s, op), table, id)
  {
    hide Step;
    var t := Step(cfg, s, op);
    match op {
      case SetTenant(_, _, _) => OtherGrows(cfg, s, op);
      case SetFrozen(_, _) => OtherGrows(cfg, s, op);
      case Credit(_, _, _, _) => OtherGrows(cfg, s, op);
      case Create(_, _, _, _, _, _) => OtherGrows(cfg, s, op);
      case Request(_, _, _, _, _, _) => OtherGrows(cfg, s, op);
      case Execute(_, _) => WithdrawalGrows(cfg, s, op);
      case Reconcile(_, _) => WithdrawalGrows(cfg, s, op);
      case AdminAction(_, _) => WithdrawalGrows(cfg, s, op);
      case Accept(_, _) => EscrowTalks(cfg, s, op);
      case Dispute(_, _) => EscrowTalks(cfg, s, op);
      case RequestCancel(_, _) => EscrowTalks(cfg, s, op);
      case RespondCancel(_, _, _) => EscrowTalks(cfg, s, op);
      case _ => EscrowCloses(cfg, s, op);
    }
  }

  /** Only admins change who is frozen and which tenants there are. */
  lemma AdminTablesKept(cfg: Settings, s: Snapshot, op: Op)
    ensures var t := Step(cfg, s, op);
            (!op.SetFrozen? ==> t.frozen == s.frozen) && (!op.SetTenant? ==> t.tenants == s.tenants)
  {
    hide Step;
    match op {
      case Execute(_, _) => WithdrawalGrows(cfg, s, op);
      case Reconcile(_, _) => WithdrawalGrows(cfg, s, op);
      case AdminAction(_, _) => WithdrawalGrows(cfg, s, op);
      case Accept(_, _) => EscrowTalks(cfg, s, op);
      case Dispute(_, _) => EscrowTalks(cfg, s, op);
      case RequestCancel(_, _) => EscrowTalks(cfg, s, op);
      case RespondCancel(_, _, _) => EscrowTalks(cfg, s, op);
      case Release(_, _) => EscrowCloses(cfg, s, op);
      case Cancel(_, _) => EscrowCloses(cfg, s, op);
      case Resolve(_, _, _) => EscrowCloses(cfg, s, op);
      case _ => OtherGrows(cfg, s, op);
    }
  }

  lemma StepGrows(cfg: Settings, s: Snapshot, op: Op)
    ensures Grows(s.ledger, Step(cfg, s, op).ledger, Subject(s, op))
    ensures !op.Credit? ==> Step(cfg, s, op).deposits == s.deposits
  {
    hide Step;
    match op {
      case Accept(_, _) => EscrowTalks(cfg, s, op);
      case Dispute(_, _) => EscrowTalks(cfg, s, op);
      case RequestCancel(_, _) => EscrowTalks(cfg, s, op);
      case RespondCancel(_, _, _) => EscrowTalks(cfg, s, op);
      case Release(_, _) => EscrowCloses(cfg, s, op);
      case Cancel(_, _) => EscrowCloses(cfg, s, op);
      case Resolve(_, _, _) => EscrowCloses(cfg, s, op);
      case Execute(_, _) => WithdrawalGrows(cfg, s, op);
      case Reconcile(_, _) => WithdrawalGrows(cfg, s, op);
      case AdminAction(_, _) => WithdrawalGrows(cfg, s, op);
      case _ => OtherGrows(cfg, s, op);
    }
  }

  lemma StepAppends(cfg: Settings, s: Snapshot, op: Op)
    ensures s.ledger <= Step(cfg, s, op).ledger
  {
    hide Step, Subject;
    StepGrows(cfg, s, op);
  }

  /** The ledger is append-only over every run. */
  lemma {:induction false} LedgerAppendOnly(plan: Plan, ops: seq<Op>, more: seq<Op>)
    ensures Run(plan, ops).ledger <= Run(plan, ops + more).ledger
  {
    hide Step;
    if more == [] {
      assert ops + more == ops;
    } else {
      var n := |more| - 1;
      assert (ops + more)[..|ops| + n] == ops + more[..n];
      LedgerAppendOnly(plan, ops, more[..n]);
      StepAppends(plan(|ops| + n), Run(plan, ops + more[..n]), more[n]);
    }
  }

  lemma UntouchedTwice(s: Snapshot, m: Snapshot, t: Snapshot, table: RefType, id: nat)
    requires Untouched(s, m, table, id) && Untouched(m, t, table, id)
    ensures Untouched(s, t, table, id)
  {
    assert forall i :: 0 <= i < |m.ledger| ==> t.ledger[i] == m.ledger[i];
  }

  lemma UntouchedSum(s: Snapshot, t: Snapshot, table: RefType, id: nat)
    requires Untouched(s, t, table, id)
    ensures Sum(OfRow(table, id), t.ledger) == Sum(OfRow(table, id), s.ledger)
  {
    var es := t.ledger[|s.ledger|..];
    assert t.ledger == s.ledger + es;
    SumConcat(OfRow(table, id), s.ledger, es);
    SumNone(OfRow(table, id), es);
  }

  /** A closed escrow or finished withdrawal keeps its row, and nothing is ever booked for it again. */
  lemma {:induction false} FinalForever(plan: Plan, ops: seq<Op>, more: seq<Op>, table: RefType, id: nat)
    requires Final(Run(plan, ops), table, id)
    ensures Untouched(Run(plan, ops), Run(plan, ops + more), table, id)
    ensures Sum(OfRow(table, id), Run(plan, ops + more).ledger) == Sum(OfRow(table, id), Run(plan, ops).ledger)
  {
    hide Step;
    if more == [] {
      assert ops + more == ops;
    } else {
      var n := |more| - 1;
      assert (ops + more)[..|ops| + n] == ops + more[..n];
      FinalForever(plan, ops, more[..n], table, id);
      FinalStep(plan(|ops| + n), Run(plan, ops + more[..n]), more[n], table, id);
      UntouchedTwice(Run(plan, ops), Run(plan, ops + more[..n]), Run(plan, ops + more), table, id);
    }
    hide Run;
    UntouchedSum(Run(plan, ops), Run(plan, ops + more), table, id);
  }

  // ----- the tenants of the escrows

  /** Every escrow belongs to a tenant that exists, and every tenant's fee was validated. */
  ghost predicate TenantsFit(s: Snapshot) {
    && (forall b :: b in s.tenants ==> 0.0 <= s.tenants[b].extraFeePct <= FeeService.MAX_BOT_EXTRA_FEE_PERCENT)
    && (forall e :: 0 <= e < |s.escrows| ==> s.escrows[e].botId in s.tenants)
  }

  lemma TenantsStep(cfg: Settings, s: Snapshot, op: Op)
    requires TenantsFit(s)
    ensures TenantsFit(Step(cfg, s, op))
  {
    hide FeeService.CalculateTotalFees, Step;
    match op {
      case SetTenant(_, _, _) => TenantOrEscrow(cfg, s, op);
      case Create(_, _, _, _, _, _) => TenantOrEscrow(cfg, s, op);
      case Execute(_, _) => WithdrawalGrows(cfg, s, op);
      case Reconcile(_, _) => WithdrawalGrows(cfg, s, op);
      case AdminAction(_, _) => WithdrawalGrows(cfg, s, op);
      case Accept(_, _) => EscrowTalks(cfg, s, op);
      case Dispute(_, _) => EscrowTalks(cfg, s, op);
      case RequestCancel(_, _) => EscrowTalks(cfg, s, op);
      case RespondCancel(_, _, _) => EscrowTalks(cfg, s, op);
      case Release(_, _) => EscrowCloses(cfg, s, op);
      case Cancel(_, _) => EscrowCloses(cfg, s, op);
      case Resolve(_, _, _) => EscrowCloses(cfg, s, op);
      case _ => OtherTables(cfg, s, op);
    }
  }

  lemma TenantOrEscrow(cfg: Settings, s: Snapshot, op: Op)
    requires TenantsFit(s) && (op.SetTenant? || op.Create?)
    ensures TenantsFit(Step(cfg, s, op))
  {
    hide FeeService.CalculateTotalFees, EscrowService.MeetsMinimum, Text.Strip;
  }

  lemma OtherTables(cfg: Settings, s: Snapshot, op: Op)
    requires op.SetFrozen? || op.Credit? || op.Request?
    ensures Step(cfg, s, op).tenants == s.tenants && Step(cfg, s, op).escrows == s.escrows
  {
    hide Deposits.Booked, Deposits.SightedRow, Deposits.Target, Withdrawals.Refusal, Withdrawals.NewRow;
  }

  /** So the fees of an escrow can always be computed: accepting one never fails after its commit. */
  lemma {:induction false} FeesAlwaysShown(plan: Plan, cfg: Settings, ops: seq<Op>, e: nat)
    ensures TenantsFit(Run(plan, ops))
    ensures e < |Run(plan, ops).escrows| ==> EscrowService.FeesShown(cfg, Run(plan, ops), e).Ok?
  {
    hide Step;
    if ops != [] {
      FeesAlwaysShown(plan, cfg, ops[..|ops| - 1], e);
      TenantsStep(plan(|ops| - 1), Run(plan, ops[..|ops| - 1]), ops[|ops| - 1]);
    }
  }

  lemma ReachableTenants(chain: string -> Sighting, s: Snapshot)
    requires CustodyRuns.Reachable(chain, s)
    ensures TenantsFit(s)
  {
    hide Run, TenantsFit, GoodPlan;
    var plan: Plan, ops: seq<Op> :| GoodPlan(plan) && CustodyRuns.GoodRun(chain, ops) && Run(plan, ops) == s;
    FeesAlwaysShown(plan, plan(0), ops, 0);
  }

  // ----- what a state of the run tells

  function OpenDisputes(rows: seq<DisputeRow>, e: nat): nat {
    if rows == [] then 0
    else OpenDisputes(rows[..|rows| - 1], e) + if rows[|rows| - 1].escrowId == e && rows[|rows| - 1].resolution.None?
      then 1 else 0
  }

  lemma {:induction false} OpenDisputesCount(rows: seq<DisputeRow>, e: nat)
    ensures OpenDisputes(rows, e) == OpenDisputes(DisputesOf(rows, e), e)
  {
    if rows != [] {
      var n := |rows| - 1;
      OpenDisputesCount(rows[..n], e);
      var mine := DisputesOf(rows[..n], e);
      if rows[n].escrowId == e {
        var all := mine + [rows[n]];
        assert DisputesOf(rows, e) == all && all[..|all| - 1] == mine;
      } else {
        assert DisputesOf(rows, e) == mine;
      }
    }
  }

  /** Status, lock and dispute of an escrow always tell the same story. */
  lemma LockFollowsStatus(chain: string -> Sighting, s: Snapshot, e: nat)
    requires CustodyRuns.Reachable(chain, s)
    ensures && (e in s.locks <==> e < |s.escrows|)
            && (e < |s.escrows| ==>
                  && s.locks[e].user == s.escrows[e].buyer && s.locks[e].asset == s.escrows[e].asset
                  && s.locks[e].amount == s.escrows[e].amount > 0.0
                  && (s.locks[e].status == Locked <==> s.escrows[e].status in {EscrowStatus.Pending, Active, Disputed})
                  && OpenDisputes(s.disputes, e) == (if s.escrows[e].status == Disputed then 1 else 0))
  {
    hide Inv, CustodyRuns.Reachable, EscrowFootprint;
    CustodyRuns.ReachableInv(chain, s);
    CustodyEquation.LedgerFine(chain, s);
    if e < |s.escrows| {
      assert EscrowOk(s, e);
      OpenDisputesCount(s.disputes, e);
    }
  }

  /** At most one release per withdrawal, and exactly when it failed; the fee is booked at most once. */
  ghost predicate ReleasedIffFailed(s: Snapshot, w: nat) {
    && Count(OfRowType(WithdrawalRef, w, WITHDRAWAL_RELEASE), s.ledger) ==
       (if w < |s.withdrawals| && s.withdrawals[w].status == Failed then 1 else 0)
    && Count(OfAccountRowType(PlatformRevenue, WithdrawalRef, w, WITHDRAWAL_PLATFORM_FEE), s.ledger) <= 1
  }

  lemma InvReleases(chain: string -> Sighting, s: Snapshot, w: nat)
    requires Inv(chain, s)
    ensures ReleasedIffFailed(s, w)
  {
    hide Inv;
    CustodyEquation.LedgerFine(chain, s);
    if w < |s.withdrawals| {
      assert WithdrawalOk(s, w);
    } else {
      CustodySteps.NothingBooked(s, WithdrawalRef, w);
    }
  }

  lemma ReleasedAtMostOnce(chain: string -> Sighting, s: Snapshot, w: nat)
    requires CustodyRuns.Reachable(chain, s)
    ensures ReleasedIffFailed(s, w)
  {
    hide Inv, CustodyRuns.Reachable, ReleasedIffFailed;
    CustodyRuns.ReachableInv(chain, s);
    InvReleases(chain, s, w);
  }
}
