/** Who may move an escrow from which status to which, and what each account gets when it is closed. */
module EscrowTable {
  import opened Tables
  import opened LedgerService
  import opened Custody
  import opened CustodyRuns
  import CustodyEquation
  import EscrowLocks
  import EscrowService
  import FeeService
  import Lifecycles
  import Rounding
  import Text

  /** What one account holds of an asset. */
  function Held(s: Snapshot, account: Account, asset: Asset): real {
    Sum(OfAccount(account, asset), s.ledger)
  }

  predicate IsEscrowOp(op: Op) {
    || op.Accept? || op.Release? || op.Dispute? || op.Cancel?
    || op.RequestCancel? || op.RespondCancel? || op.Resolve?
  }

  function Other(row: EscrowRow, user: int): int {
    if user == row.buyer then row.seller else row.buyer
  }

  /** The other participant has asked the user to cancel e, and nobody has answered. */
  predicate AskedToCancel(s: Snapshot, e: nat, user: int)
    requires e < |s.escrows|
  {
    var row := s.escrows[e];
    user in {row.buyer, row.seller} && e in s.requests && s.requests[e] == CancelRequest(Other(row, user), user, Open)
  }

  /** The status escrow e has after an operation: which step it takes, and by whom. */
  function NextStatus(cfg: Settings, s: Snapshot, op: Op, e: nat): EscrowStatus
    requires e < |s.escrows| && IsEscrowOp(op) && op.e == e
  {
    var row := s.escrows[e];
    var participants := {row.buyer, row.seller};
    match row.status
    case Pending =>
      if op == Accept(e, row.seller) then Active
      else if op.Cancel? && op.actor in participants then Cancelled
      else if op.Dispute? && op.actor in participants then Disputed
      else Pending
    case Active =>
      if op == Release(e, row.buyer) then Completed
      else if op.Dispute? && op.actor in participants then Disputed
      else if op.RespondCancel? && op.accept && AskedToCancel(s, e, op.actor) then Cancelled
      else Active
    case Disputed => if op.Resolve? && op.actor in cfg.moderators then Completed else Disputed
    case _ => row.status
  }

  function Cents(amount: real): real {
    Rounding.RoundHalfUp(amount, 0.01)
  }

  function Percent(amount: real, pct: real): real {
    amount * pct / 100.0
  }

  /** Of an amount that is paid out: both fees to the cent, and to the seller the rounding of what they leave. */
  function Paid(cfg: Settings, tenant: Tenant, seller: int, amount: real, account: Account): real {
    var platform, bot := Cents(Percent(amount, cfg.platformPct)), Cents(Percent(amount, tenant.extraFeePct));
    (if account == User(seller) then Cents(amount - (platform + bot)) else 0.0) +
    (if account == PlatformRevenue then platform else 0.0) +
    (if account == BotOwnerRevenue(tenant.owner) then bot else 0.0)
  }

  function To(account: Account, user: int, amount: real): real {
    if account == User(user) then amount else 0.0
  }

  /** What an account gets out of the lock of e when an operation closes it. */
  function Gain(cfg: Settings, s: Snapshot, op: Op, e: nat, account: Account): real
    requires e < |s.escrows| && s.escrows[e].botId in s.tenants && IsEscrowOp(op) && op.e == e
  {
    var row := s.escrows[e];
    var tenant := s.tenants[row.botId];
    if NextStatus(cfg, s, op, e) == row.status then 0.0
    else match NextStatus(cfg, s, op, e)
      case Cancelled => To(account, row.buyer, row.amount)
      case Completed =>
        if op.Release? then Paid(cfg, tenant, row.seller, row.amount, account)
        else (
          match op.resolution
          case ReleaseSeller => Paid(cfg, tenant, row.seller, row.amount, account)
          case RefundBuyer => To(account, row.buyer, row.amount)
          case Split(pct) =>
            var part := Percent(row.amount, pct);
            Paid(cfg, tenant, row.seller, part, account) + To(account, row.buyer, row.amount - part)
        )
      case _ => 0.0
  }

  /** What the proofs below need of a reachable state. */
  ghost predicate Fine(s: Snapshot, e: nat)
    requires e < |s.escrows|
  {
    var row := s.escrows[e];
    && row.botId in s.tenants && 0.0 <= s.tenants[row.botId].extraFeePct <= FeeService.MAX_BOT_EXTRA_FEE_PERCENT
    && row.buyer != row.seller && row.amount > 0.0
    && e in s.locks
    && s.locks[e] == LockRow(row.buyer, row.asset, row.amount, if OpenStatus(row.status) then Locked else Released)
  }

  lemma ReachableFine(chain: string -> Sighting, s: Snapshot, e: nat)
    requires Reachable(chain, s) && e < |s.escrows|
    ensures Fine(s, e)
  {
    hide Inv, Reachable, EscrowFootprint;
    ReachableInv(chain, s);
    CustodyEquation.LedgerFine(chain, s);
    Lifecycles.ReachableTenants(chain, s);
    assert EscrowOk(s, e);
  }

  lemma FeesGiven(amount: real, platformPct: real, botPct: real)
    requires 0.0 <= botPct <= FeeService.MAX_BOT_EXTRA_FEE_PERCENT
    ensures var r := FeeService.CalculateTotalFees(amount, platformPct, botPct);
            && r.Ok?
            && r.value.platformFee == Cents(Percent(amount, platformPct))
            && r.value.botFee == Cents(Percent(amount, botPct))
            && r.value.sellerPayout == Cents(amount - (r.value.platformFee + r.value.botFee))
  {
    hide Rounding.RoundHalfUp, Rounding.Tie;
    FeeService.FeesConserve(amount, platformPct, botPct);
    var f := FeeService.CalculateTotalFees(amount, platformPct, botPct).value;
    assert f.sellerPayout == FeeService.Money(amount - f.totalFee);
    ShareIs(amount, platformPct);
    ShareIs(amount, botPct);
    hide FeeService.Share, Percent;
    assert FeeService.CalculateBotExtraFee(amount, botPct) == Ok(FeeService.Money(FeeService.Share(amount, botPct)));
  }

  lemma ShareIs(amount: real, pct: real)
    ensures FeeService.Share(amount, pct) == Percent(amount, pct) == EscrowService.SellerPart(amount, pct)
  {
  }

  lemma HeldAfter(s: Snapshot, t: Snapshot, es: seq<Entry>, account: Account, asset: Asset)
    requires t.ledger == s.ledger + es
    ensures Held(t, account, asset) == Held(s, account, asset) + Sum(OfAccount(account, asset), es)
  {
    SumConcat(OfAccount(account, asset), s.ledger, es);
  }

  // ----- closing

  lemma SharesSum(cfg: Settings, tenant: Tenant, e: nat, seller: int, amount: real, coin: Asset, account: Account,
                  asset: Asset)
    requires 0.0 <= tenant.extraFeePct <= FeeService.MAX_BOT_EXTRA_FEE_PERCENT
    ensures FeeService.CalculateTotalFees(amount, cfg.platformPct, tenant.extraFeePct).Ok?
    ensures var f := FeeService.CalculateTotalFees(amount, cfg.platformPct, tenant.extraFeePct).value;
            var es := EscrowLocks.ReleaseEntries(e, seller, f.platformFee, f.botFee, f.sellerPayout, tenant.owner,
                                                 coin);
            Sum(OfAccount(account, asset), es) ==
            if asset == coin then Paid(cfg, tenant, seller, amount, account) else 0.0
  {
    hide FeeService.CalculateTotalFees, Percent;
    FeesGiven(amount, cfg.platformPct, tenant.extraFeePct);
    hide Cents;
    var f := FeeService.CalculateTotalFees(amount, cfg.platformPct, tenant.extraFeePct).value;
    var es := EscrowLocks.ReleaseEntries(e, seller, f.platformFee, f.botFee, f.sellerPayout, tenant.owner, coin);
    SumFew(OfAccount(account, asset), es);
    hide Sum;
  }

  lemma PayoutGives(cfg: Settings, s: Snapshot, e: nat, account: Account, asset: Asset)
    requires e < |s.escrows| && Fine(s, e) && OpenStatus(s.escrows[e].status)
    ensures var r, row := EscrowService.AfterPayout(cfg, s, e), s.escrows[e];
            && r.Ok? && r.value.escrows == s.escrows
            && Held(r.value, account, asset) == Held(s, account, asset) +
               if asset == row.asset then Paid(cfg, s.tenants[row.botId], row.seller, row.amount, account) else 0.0
  {
    hide FeeService.CalculateTotalFees, Cents;
    var row, tenant := s.escrows[e], s.tenants[s.escrows[e].botId];
    FeesGiven(row.amount, cfg.platformPct, tenant.extraFeePct);
    var f := FeeService.CalculateTotalFees(row.amount, cfg.platformPct, tenant.extraFeePct).value;
    SharesSum(cfg, tenant, e, row.seller, row.amount, row.asset, account, asset);
    var es := EscrowLocks.ReleaseEntries(e, row.seller, f.platformFee, f.botFee, f.sellerPayout, tenant.owner,
                                         row.asset);
    HeldAfter(s, EscrowService.AfterPayout(cfg, s, e).value, es, account, asset);
    hide Paid, Sum;
  }

  lemma RefundGives(s: Snapshot, e: nat, account: Account, asset: Asset)
    requires e < |s.escrows| && Fine(s, e) && OpenStatus(s.escrows[e].status)
    ensures var r, row := EscrowLocks.AfterUnlock(s, e, EscrowLocks.RefundEntries(s, e)), s.escrows[e];
            && r.Ok? && r.value.escrows == s.escrows
            && Held(r.value, account, asset) == Held(s, account, asset) +
               if asset == row.asset then To(account, row.buyer, row.amount) else 0.0
  {
    hide Held;
    var row := s.escrows[e];
    var refund := Entry(User(row.buyer), row.asset, row.amount, ESCROW_UNLOCK, EscrowRef, e);
    assert EscrowLocks.RefundEntries(s, e) == [refund];
    HeldAfter(s, EscrowLocks.AfterUnlock(s, e, [refund]).value, [refund], account, asset);
    LockGives(refund, account, asset);
    hide Sum;
  }

  lemma SplitGives(cfg: Settings, s: Snapshot, e: nat, pct: real, account: Account, asset: Asset)
    requires e < |s.escrows| && Fine(s, e) && OpenStatus(s.escrows[e].status)
    ensures EscrowService.SplitEntries(cfg, s, e, pct).Ok?
    ensures var r, row := EscrowLocks.AfterUnlock(s, e, EscrowService.SplitEntries(cfg, s, e, pct).value), s.escrows[e];
            var part := Percent(row.amount, pct);
            && r.Ok? && r.value.escrows == s.escrows
            && Held(r.value, account, asset) == Held(s, account, asset) +
               if asset == row.asset
               then Paid(cfg, s.tenants[row.botId], row.seller, part, account) +
                    To(account, row.buyer, row.amount - part)
               else 0.0
  {
    hide FeeService.CalculateTotalFees, Cents, Percent, EscrowService.SellerPart;
    var row, tenant := s.escrows[e], s.tenants[s.escrows[e].botId];
    var part := Percent(row.amount, pct);
    ShareIs(row.amount, pct);
    FeesGiven(part, cfg.platformPct, tenant.extraFeePct);
    var es := EscrowService.SplitEntries(cfg, s, e, pct).value;
    SumFew(OfAccount(account, asset), es);
    HeldAfter(s, EscrowLocks.AfterUnlock(s, e, es).value, es, account, asset);
    hide Sum;
  }

  // ----- the table

  /** After the operation e has the status of the table, its row is otherwise the same, and accounts got their share. */
  ghost predicate Follows(cfg: Settings, s: Snapshot, t: Snapshot, op: Op, account: Account, asset: Asset)
    requires IsEscrowOp(op) && op.e < |s.escrows| && s.escrows[op.e].botId in s.tenants
  {
    var row := s.escrows[op.e];
    && |t.escrows| == |s.escrows| && t.escrows[op.e] == row.(status := NextStatus(cfg, s, op, op.e))
    && Held(t, account, asset) == Held(s, account, asset) +
       if asset == row.asset then Gain(cfg, s, op, op.e, account) else 0.0
  }

  lemma TalkFollows(cfg: Settings, s: Snapshot, op: Op, account: Account, asset: Asset)
    requires op.Accept? || op.Dispute? || op.RequestCancel?
    requires op.e < |s.escrows| && Fine(s, op.e)
    ensures Follows(cfg, s, Step(cfg, s, op), op, account, asset)
  {
    hide Cents, Sum;
  }

  lemma NothingFollows(cfg: Settings, s: Snapshot, op: Op, account: Account, asset: Asset)
    requires IsEscrowOp(op) && op.e < |s.escrows| && s.escrows[op.e].botId in s.tenants
    requires NextStatus(cfg, s, op, op.e) == s.escrows[op.e].status
    ensures Follows(cfg, s, s, op, account, asset)
  {
  }

  lemma CancelRefused(cfg: Settings, s: Snapshot, op: Op)
    requires op.Cancel? && op.e < |s.escrows| && NextStatus(cfg, s, op, op.e) == s.escrows[op.e].status
    ensures Step(cfg, s, op) == s
  {
  }

  lemma ReleaseRefused(cfg: Settings, s: Snapshot, op: Op)
    requires op.Release? && op.e < |s.escrows| && NextStatus(cfg, s, op, op.e) == s.escrows[op.e].status
    ensures Step(cfg, s, op) == s
  {
  }

  /** A declined or refused answer changes at most the stored request. */
  lemma RespondRefused(cfg: Settings, s: Snapshot, op: Op)
    requires op.RespondCancel? && op.e < |s.escrows| && Fine(s, op.e)
    requires NextStatus(cfg, s, op, op.e) == s.escrows[op.e].status
    ensures Step(cfg, s, op) == s.(requests := Step(cfg, s, op).requests)
  {
  }

  lemma CancelFollows(cfg: Settings, s: Snapshot, op: Op, account: Account, asset: Asset)
    requires op.Cancel? && op.e < |s.escrows| && Fine(s, op.e)
    ensures Follows(cfg, s, Step(cfg, s, op), op, account, asset)
  {
    if NextStatus(cfg, s, op, op.e) == s.escrows[op.e].status {
      CancelRefused(cfg, s, op);
      NothingFollows(cfg, s, op, account, asset);
    } else {
      RefundGives(s, op.e, account, asset);
      hide EscrowLocks.AfterUnlock, EscrowLocks.RefundEntries, To, Sum, Fine;
    }
  }

  /** An accepted answer unlocks the money and then closes the escrow. */
  lemma RespondCloses(cfg: Settings, s: Snapshot, op: Op)
    requires op.RespondCancel? && op.e < |s.escrows| && Fine(s, op.e)
    requires NextStatus(cfg, s, op, op.e) != s.escrows[op.e].status
    ensures var r := EscrowLocks.AfterUnlock(s, op.e, EscrowLocks.RefundEntries(s, op.e));
            && r.Ok?
            && var t := Step(cfg, s, op);
               && t.ledger == r.value.ledger
               && t.escrows == s.escrows[op.e := s.escrows[op.e].(status := Cancelled)]
  {
  }

  lemma HeldOfLedger(s: Snapshot, t: Snapshot, account: Account, asset: Asset)
    requires s.ledger == t.ledger
    ensures Held(s, account, asset) == Held(t, account, asset)
  {
  }

  lemma RespondFollows(cfg: Settings, s: Snapshot, op: Op, account: Account, asset: Asset)
    requires op.RespondCancel? && op.e < |s.escrows| && Fine(s, op.e)
    ensures Follows(cfg, s, Step(cfg, s, op), op, account, asset)
  {
    if NextStatus(cfg, s, op, op.e) == s.escrows[op.e].status {
      RespondRefused(cfg, s, op);
      hide Step, Sum;
    } else {
      RefundGives(s, op.e, account, asset);
      RespondCloses(cfg, s, op);
      hide Step, EscrowLocks.AfterUnlock, EscrowLocks.RefundEntries, To, Sum, Held, Fine;
      var unlocked := EscrowLocks.AfterUnlock(s, op.e, EscrowLocks.RefundEntries(s, op.e)).value;
      HeldOfLedger(unlocked, Step(cfg, s, op), account, asset);
    }
  }

  lemma ReleaseFollows(cfg: Settings, s: Snapshot, op: Op, account: Account, asset: Asset)
    requires op.Release? && op.e < |s.escrows| && Fine(s, op.e)
    ensures Follows(cfg, s, Step(cfg, s, op), op, account, asset)
  {
    if NextStatus(cfg, s, op, op.e) == s.escrows[op.e].status {
      ReleaseRefused(cfg, s, op);
      NothingFollows(cfg, s, op, account, asset);
    } else {
      PayoutGives(cfg, s, op.e, account, asset);
      hide EscrowService.AfterPayout, Paid, Sum, Fine;
    }
  }

  lemma ResolveRefused(cfg: Settings, s: Snapshot, op: Op)
    requires op.Resolve? && op.e < |s.escrows| && NextStatus(cfg, s, op, op.e) == s.escrows[op.e].status
    ensures Step(cfg, s, op) == s
  {
  }

  /** The tables after the entries of a resolution, before the status changes. */
  function Settled(cfg: Settings, s: Snapshot, e: nat, resolution: Resolution): Result<Snapshot>
    requires e < |s.escrows|
  {
    match resolution
    case ReleaseSeller => EscrowService.AfterPayout(cfg, s, e)
    case RefundBuyer => EscrowLocks.AfterUnlock(s, e, EscrowLocks.RefundEntries(s, e))
    case Split(pct) =>
      var es := EscrowService.SplitEntries(cfg, s, e, pct);
      if es.Ok? then EscrowLocks.AfterUnlock(s, e, es.value) else Err(es.error)
  }

  lemma SettledGives(cfg: Settings, s: Snapshot, op: Op, account: Account, asset: Asset)
    requires op.Resolve? && op.e < |s.escrows| && Fine(s, op.e) && NextStatus(cfg, s, op, op.e) == Completed
    requires s.escrows[op.e].status == Disputed
    ensures var r := Settled(cfg, s, op.e, op.resolution);
            && r.Ok? && r.value.escrows == s.escrows
            && Held(r.value, account, asset) == Held(s, account, asset) +
               if asset == s.escrows[op.e].asset then Gain(cfg, s, op, op.e, account) else 0.0
  {
    match op.resolution {
      case ReleaseSeller => PayoutGives(cfg, s, op.e, account, asset);
      case RefundBuyer => RefundGives(s, op.e, account, asset);
      case Split(pct) => SplitGives(cfg, s, op.e, pct, account, asset);
    }
    hide EscrowService.AfterPayout, EscrowLocks.AfterUnlock, EscrowLocks.RefundEntries, EscrowService.SplitEntries;
    hide Held, Paid, To, Fine, Percent;
  }

  lemma SettledThenClosed(cfg: Settings, s: Snapshot, op: Op)
    requires op.Resolve? && op.e < |s.escrows| && NextStatus(cfg, s, op, op.e) == Completed
    requires s.escrows[op.e].status == Disputed && Settled(cfg, s, op.e, op.resolution).Ok?
    requires Settled(cfg, s, op.e, op.resolution).value.escrows == s.escrows
    ensures var settled := Settled(cfg, s, op.e, op.resolution).value;
            Step(cfg, s, op) == EscrowService.WithStatus(settled, op.e, Completed)
                                  .(disputes := EscrowService.Resolved(s.disputes, op.e, op.resolution))
  {
    hide EscrowService.AfterPayout, EscrowLocks.AfterUnlock, EscrowLocks.RefundEntries, EscrowService.SplitEntries;
    hide EscrowService.Resolved;
  }

  lemma ResolveFollows(cfg: Settings, s: Snapshot, op: Op, account: Account, asset: Asset)
    requires op.Resolve? && op.e < |s.escrows| && Fine(s, op.e)
    ensures Follows(cfg, s, Step(cfg, s, op), op, account, asset)
  {
    if NextStatus(cfg, s, op, op.e) == s.escrows[op.e].status {
      ResolveRefused(cfg, s, op);
      NothingFollows(cfg, s, op, account, asset);
    } else {
      hide Gain, Settled, Sum, Step, EscrowService.Resolved;
      SettledGives(cfg, s, op, account, asset);
      SettledThenClosed(cfg, s, op);
    }
  }

  /**
   In every reachable state and for every operation on an escrow: the status follows the table of who may do what,
   and each account gets exactly its share: the seller the rounding of amount minus fees, the platform and the
   tenant's owner their percentages to the cent, the buyer a refund or the rest of a split, everybody else nothing.
   */
  lemma EscrowFollowsTable(cfg: Settings, chain: string -> Sighting, s: Snapshot, op: Op, account: Account,
                           asset: Asset)
    requires Reachable(chain, s) && IsEscrowOp(op) && op.e < |s.escrows|
    ensures s.escrows[op.e].botId in s.tenants && Follows(cfg, s, Step(cfg, s, op), op, account, asset)
  {
    hide Reachable, Step, Follows;
    ReachableFine(chain, s, op.e);
    match op {
      case Cancel(_, _) => CancelFollows(cfg, s, op, account, asset);
      case RespondCancel(_, _, _) => RespondFollows(cfg, s, op, account, asset);
      case Release(_, _) => ReleaseFollows(cfg, s, op, account, asset);
      case Resolve(_, _, _) => ResolveFollows(cfg, s, op, account, asset);
      case _ => TalkFollows(cfg, s, op, account, asset);
    }
  }

  // ----- what else an operation records

  /** Whom the stored cancellation requests are from and to after an operation. */
  function NextRequests(s: Snapshot, op: Op): map<nat, CancelRequest>
    requires IsEscrowOp(op) && op.e < |s.escrows|
  {
    var row := s.escrows[op.e];
    if row.status == Active && op.RequestCancel? && op.actor in {row.buyer, row.seller}
    then s.requests[op.e := CancelRequest(op.actor, Other(row, op.actor), Open)]
    else if row.status == Active && op.RespondCancel? && AskedToCancel(s, op.e, op.actor)
    then s.requests[op.e := CancelRequest(Other(row, op.actor), op.actor, if op.accept then Accepted else Declined)]
    else s.requests
  }

  /** Requests are kept for the two participants, disputes are opened and resolved with the status, and nothing else. */
  ghost predicate Records(cfg: Settings, s: Snapshot, t: Snapshot, op: Op)
    requires IsEscrowOp(op) && op.e < |s.escrows|
  {
    var status, next := s.escrows[op.e].status, NextStatus(cfg, s, op, op.e);
    && t.requests == NextRequests(s, op)
    && t.deposits == s.deposits && t.withdrawals == s.withdrawals && t.tenants == s.tenants && t.frozen == s.frozen
    && (forall x :: 0 <= x < |s.escrows| && x != op.e ==> x < |t.escrows| && t.escrows[x] == s.escrows[x])
    && (status != Disputed && next == Disputed ==> t.disputes == s.disputes + [DisputeRow(op.e, op.actor, None)])
    && (status == Disputed && next == Completed ==>
          && |t.disputes| == |s.disputes|
          && forall i :: 0 <= i < |s.disputes| ==>
               t.disputes[i] == if s.disputes[i].escrowId == op.e && s.disputes[i].resolution.None?
                                then s.disputes[i].(resolution := Some(op.resolution)) else s.disputes[i])
    && ((status == Disputed <==> next == Disputed) ==> t.disputes == s.disputes)
  }

  lemma EscrowRecords(cfg: Settings, chain: string -> Sighting, s: Snapshot, op: Op)
    requires Reachable(chain, s) && IsEscrowOp(op) && op.e < |s.escrows|
    ensures Records(cfg, s, Step(cfg, s, op), op)
  {
    hide Reachable, Sum, Step, Records;
    ReachableFine(chain, s, op.e);
    match op {
      case Resolve(_, _, _) => ResolveRecords(cfg, s, op);
      case Release(_, _) => ReleaseRecords(cfg, s, op);
      case RespondCancel(_, _, _) => RespondRecords(cfg, s, op);
      case Cancel(_, _) => CancelRecords(cfg, s, op);
      case _ => TalkRecords(cfg, s, op);
    }
  }

  lemma CancelRecords(cfg: Settings, s: Snapshot, op: Op)
    requires op.Cancel? && op.e < |s.escrows| && Fine(s, op.e)
    ensures Records(cfg, s, Step(cfg, s, op), op)
  {
  }

  lemma TalkRecords(cfg: Settings, s: Snapshot, op: Op)
    requires op.Accept? || op.Dispute? || op.RequestCancel?
    requires op.e < |s.escrows| && Fine(s, op.e)
    ensures Records(cfg, s, Step(cfg, s, op), op)
  {
  }

  lemma RespondRecords(cfg: Settings, s: Snapshot, op: Op)
    requires op.RespondCancel? && op.e < |s.escrows| && Fine(s, op.e)
    ensures Records(cfg, s, Step(cfg, s, op), op)
  {
  }

  lemma ReleaseRecords(cfg: Settings, s: Snapshot, op: Op)
    requires op.Release? && op.e < |s.escrows| && Fine(s, op.e)
    ensures Records(cfg, s, Step(cfg, s, op), op)
  {
    hide FeeService.CalculateTotalFees;
    if NextStatus(cfg, s, op, op.e) == s.escrows[op.e].status {
      ReleaseRefused(cfg, s, op);
    } else {
      PayoutGives(cfg, s, op.e, PlatformRevenue, ETH);
    }
  }

  lemma ResolveRecords(cfg: Settings, s: Snapshot, op: Op)
    requires op.Resolve? && op.e < |s.escrows| && Fine(s, op.e)
    ensures Records(cfg, s, Step(cfg, s, op), op)
  {
    hide FeeService.CalculateTotalFees, EscrowService.SplitEntries;
    if NextStatus(cfg, s, op, op.e) == s.escrows[op.e].status {
      ResolveRefused(cfg, s, op);
    } else {
      SettledGives(cfg, s, op, PlatformRevenue, ETH);
      SettledThenClosed(cfg, s, op);
      SettledMoves(cfg, s, op.e, op.resolution);
      hide Settled, Step, Gain, Held;
    }
  }

  lemma SettledMoves(cfg: Settings, s: Snapshot, e: nat, resolution: Resolution)
    requires e < |s.escrows| && Settled(cfg, s, e, resolution).Ok?
    ensures var t := Settled(cfg, s, e, resolution).value; t == s.(ledger := t.ledger, locks := t.locks)
  {
    hide FeeService.CalculateTotalFees, EscrowService.SplitEntries, EscrowLocks.RefundEntries;
  }

  // ----- tenants

  /** The tenant of a bot after these operations: the last one set with a fee of 0 to 3 per cent. */
  function TenantBy(ops: seq<Op>, botId: int): Option<Tenant> {
    if ops == [] then None
    else
      var n := |ops| - 1;
      if ops[n].SetTenant? && ops[n].botId == botId && 0.0 <= ops[n].extraFeePct <= 3.0
      then Some(Tenant(ops[n].owner, ops[n].extraFeePct)) else TenantBy(ops[..n], botId)
  }

  /** The stored tenants are the last valid ones. */
  lemma {:induction false} TenantsAre(plan: Plan, ops: seq<Op>, botId: int)
    ensures botId in Run(plan, ops).tenants <==> TenantBy(ops, botId).Some?
    ensures botId in Run(plan, ops).tenants ==> TenantBy(ops, botId) == Some(Run(plan, ops).tenants[botId])
  {
    if ops != [] {
      var n := |ops| - 1;
      TenantsAre(plan, ops[..n], botId);
      if !ops[n].SetTenant? {
        Lifecycles.AdminTablesKept(plan(n), Run(plan, ops[..n]), ops[n]);
        hide Step;
      }
    }
  }

  // ----- creating

  lemma {:induction false} HeldIsBalance(s: Snapshot, user: int, asset: Asset)
    ensures Held(s, User(user), asset) == Balance(s, user, asset)
    decreases |s.ledger|
  {
    if s.ledger != [] {
      HeldIsBalance(s.(ledger := s.ledger[..|s.ledger| - 1]), user, asset);
    }
  }

  /** Worth 40 USD at the current or at the fallback price, and described in 1 to 500 characters. */
  predicate Acceptable(cfg: Settings, coin: Asset, amount: real, description: string) {
    && (amount * cfg.price(coin) >= 40.0 || amount * cfg.fallbackPrice(coin) >= 40.0)
    && 1 <= |Text.Strip(description)| <= 500
  }

  /**
   In every reachable state, an escrow is created exactly when its tenant exists, two different users deal, the deal
   is acceptable and the buyer holds the amount; then the amount leaves the buyer and nobody else gets or pays anything.
   */
  lemma CreateIff(cfg: Settings, chain: string -> Sighting, s: Snapshot, op: Op, account: Account, asset: Asset)
    requires Reachable(chain, s) && op.Create?
    ensures var t := Step(cfg, s, op);
            if op.botId in s.tenants && op.buyer != op.seller &&
               Acceptable(cfg, op.asset, op.amount, op.description) && Held(s, User(op.buyer), op.asset) >= op.amount
            then
              && t.escrows == s.escrows +
                 [EscrowRow(op.botId, op.buyer, op.seller, op.asset, op.amount, EscrowStatus.Pending)]
              && Held(t, account, asset) == Held(s, account, asset) -
                 if account == User(op.buyer) && asset == op.asset then op.amount else 0.0
            else t == s
  {
    hide Reachable, Inv, FeeService.CalculateTotalFees, Text.Strip, Sum;
    ReachableInv(chain, s);
    CustodyEquation.LedgerFine(chain, s);
    Lifecycles.ReachableTenants(chain, s);
    HeldIsBalance(s, op.buyer, op.asset);
    if op.botId in s.tenants {
      FeesGiven(op.amount, cfg.platformPct, s.tenants[op.botId].extraFeePct);
    }
    var e := |s.escrows|;
    var lock := Entry(User(op.buyer), op.asset, -op.amount, ESCROW_LOCK, EscrowRef, e);
    if Step(cfg, s, op) != s {
      HeldAfter(s, Step(cfg, s, op), [lock], account, asset);
      LockGives(lock, account, asset);
    }
  }

  lemma LockGives(entry: Entry, account: Account, asset: Asset)
    ensures Sum(OfAccount(account, asset), [entry]) ==
            if account == entry.account && asset == entry.asset then entry.amount else 0.0
  {
    SumFew(OfAccount(account, asset), [entry]);
  }
}
