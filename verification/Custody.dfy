/** One run of the custody system: every operation of the wallet, escrow and signer services, in any order. */
module Custody {
  import opened Tables
  import opened LedgerService
  import opened WalletFees
  import opened ProviderReplies
  import Deposits
  import EscrowService
  import FeeService
  import Withdrawals
  import SignerRules

  /** What the chain says about one unique_key. */
  datatype Sighting = Sighting(user: int, asset: Asset, amount: real)

  datatype Op =
    | SetTenant(botId: int, owner: int, extraFeePct: real)
    | SetFrozen(account: int, isFrozen: bool)
    | Credit(sighting: Sighting, key: string, confirmations: int, finalized: bool)
    | Create(botId: int, buyer: int, seller: int, asset: Asset, amount: real, description: string)
    | Accept(e: nat, actor: int)
    | Release(e: nat, actor: int)
    | Dispute(e: nat, actor: int)
    | Cancel(e: nat, actor: int)
    | RequestCancel(e: nat, actor: int)
    | RespondCancel(e: nat, actor: int, accept: bool)
    | Resolve(e: nat, actor: int, resolution: Resolution)
    | Request(user: int, asset: Asset, amount: real, destination: string, digest: string, now: int)
    | Execute(w: nat, reply: Option<Body>)
    | Reconcile(w: nat, reply: Option<Body>)
    | AdminAction(w: nat, requeue: bool)

  /** tenant_service.py: the bot fee percentage is validated before it is stored. */
  function AfterSetTenant(s: Snapshot, botId: int, owner: int, pct: real): Result<Snapshot> {
    var valid :- FeeService.ValidateBotExtraFeePercent(pct);
    Ok(s.(tenants := s.tenants[botId := Tenant(owner, valid)]))
  }

  /** A call that fails leaves the tables as they were. */
  function OrSame(s: Snapshot, r: Result<Snapshot>): Snapshot {
    if r.Ok? then r.value else s
  }

  predicate Unresolved(status: WithdrawalStatus) {
    status == Submitted || status == Broadcasted || status == SignerRetry
  }

  function Step(cfg: Settings, s: Snapshot, op: Op): Snapshot {
    match op
    case SetTenant(botId, owner, pct) => OrSame(s, AfterSetTenant(s, botId, owner, pct))
    case SetFrozen(account, isFrozen) => s.(frozen := if isFrozen then s.frozen + {account} else s.frozen - {account})
    case Credit(sighting, key, confirmations, finalized) =>
      Deposits.AfterCredit(cfg, s, sighting.user, sighting.asset, sighting.amount, key, confirmations, finalized)
    case Create(botId, buyer, seller, asset, amount, description) =>
      OrSame(s, EscrowService.AfterCreate(cfg, s, botId, buyer, seller, asset, amount, description))
    case Accept(e, actor) => OrSame(s, EscrowService.AfterAccept(s, e, actor))
    case Release(e, actor) => OrSame(s, EscrowService.AfterRelease(cfg, s, e, actor))
    case Dispute(e, actor) => OrSame(s, EscrowService.AfterDispute(s, e, actor))
    case Cancel(e, actor) => OrSame(s, EscrowService.AfterCancel(s, e, actor))
    case RequestCancel(e, actor) => OrSame(s, EscrowService.AfterRequestCancel(s, e, actor))
    case RespondCancel(e, actor, accept) => OrSame(s, EscrowService.AfterRespondCancel(s, e, actor, accept))
    case Resolve(e, actor, resolution) => OrSame(s, EscrowService.AfterResolve(cfg, s, e, actor, resolution))
    case Request(user, asset, amount, destination, digest, now) =>
      OrSame(s, Withdrawals.AfterRequest(cfg, s, user, asset, amount, destination, digest, now))
    case Execute(w, reply) =>
      if w < |s.withdrawals| && s.withdrawals[w].status == WPending then SignerRules.AfterExecute(s, w, reply) else s
    case Reconcile(w, reply) =>
      if w < |s.withdrawals| && Unresolved(s.withdrawals[w].status) then SignerRules.AfterReconcile(s, w, reply) else s
    case AdminAction(w, requeue) => OrSame(s, Withdrawals.AfterAdminAction(s, w, requeue))
  }

  /** The settings in force at each operation of a run: they are read anew at every start of a process. */
  type Plan = nat -> Settings

  function Fixed(cfg: Settings): Plan {
    (i: nat) => cfg
  }

  function Run(plan: Plan, ops: seq<Op>): Snapshot {
    if ops == [] then EMPTY
    else
      var n := |ops| - 1;
      Step(plan(n), Run(plan, ops[..n]), ops[n])
  }

  predicate GoodSettings(cfg: Settings) {
    && 0.0 <= cfg.platformPct <= 50.0
    && (forall a: Asset :: cfg.price(a) > 0.0 && cfg.fallbackPrice(a) > 0.0)
  }

  ghost predicate GoodPlan(plan: Plan) {
    forall i: nat :: GoodSettings(plan(i))
  }

  /** Sightings agree with the chain; moderators split by a percentage. */
  predicate Admissible(chain: string -> Sighting, op: Op) {
    && (op.Credit? ==> op.sighting == chain(op.key))
    && (op.Resolve? && op.resolution.Split? ==> 0.0 <= op.resolution.sellerPercent <= 100.0)
  }

  // ----- what the entries of one row should add up to

  predicate OpenStatus(status: EscrowStatus) {
    status == EscrowStatus.Pending || status == Active || status == Disputed
  }

  function DisputesOf(rows: seq<DisputeRow>, e: nat): (mine: seq<DisputeRow>)
    ensures forall i :: 0 <= i < |mine| ==> mine[i].escrowId == e
  {
    if rows == [] then []
    else DisputesOf(rows[..|rows| - 1], e) + if rows[|rows| - 1].escrowId == e then [rows[|rows| - 1]] else []
  }

  function Outcome(s: Snapshot, e: nat): Resolution {
    var rows := DisputesOf(s.disputes, e);
    if |rows| == 1 && rows[0].resolution.Some? then rows[0].resolution.value else ReleaseSeller
  }

  /** Rounding is the only thing an escrow can leave behind. */
  function PayoutDrift(paid: real): real {
    FeeService.Money(paid) - paid
  }

  function EscrowFootprint(s: Snapshot, e: nat): real
    requires e < |s.escrows|
  {
    var row := s.escrows[e];
    if OpenStatus(row.status) then -row.amount
    else if row.status == Cancelled then 0.0
    else match Outcome(s, e)
      case ReleaseSeller => PayoutDrift(row.amount)
      case RefundBuyer => 0.0
      case Split(pct) => PayoutDrift(EscrowService.SellerPart(row.amount, pct))
  }

  function DepositFootprint(row: DepositRow): real {
    if row.status == Credited && row.amount > 0.0 then row.amount else 0.0
  }

  function WithdrawalFootprint(s: Snapshot, w: nat): real
    requires w < |s.withdrawals|
  {
    var row := s.withdrawals[w];
    -Withdrawals.Reserved(row)
    + (if Withdrawals.FeeBooked(s, w) then row.platformFee else 0.0)
    + (if row.settled then row.networkFee else 0.0)
    + (if row.status == Failed then Withdrawals.ReleaseTotal(row) else 0.0)
  }

  // ----- invariants of every reachable state

  ghost predicate EntryOk(s: Snapshot, e: Entry) {
    match e.refType
    case DepositRef => e.refId < |s.deposits| && e.asset == s.deposits[e.refId].asset
    case EscrowRef => e.refId < |s.escrows| && e.asset == s.escrows[e.refId].asset
    case WithdrawalRef => e.refId < |s.withdrawals| && e.asset == s.withdrawals[e.refId].asset
  }

  ghost predicate DepositOk(chain: string -> Sighting, s: Snapshot, d: nat)
    requires d < |s.deposits|
  {
    var row := s.deposits[d];
    && Sighting(row.user, row.asset, row.amount) ==
       Sighting(chain(row.uniqueKey).user, chain(row.uniqueKey).asset,
                QuantizeAsset(row.asset, chain(row.uniqueKey).amount))
    && Sum(OfRow(DepositRef, d), s.ledger) == DepositFootprint(row)
    && forall c: nat :: c < |s.deposits| && s.deposits[c].uniqueKey == row.uniqueKey ==> c == d
  }

  /** What the dispute rows of one escrow have to look like in each status. */
  predicate DisputesFit(rows: seq<DisputeRow>, status: EscrowStatus) {
    match status
    case Disputed => |rows| == 1 && rows[0].resolution.None?
    case Completed =>
      || |rows| == 0
      || (|rows| == 1 && rows[0].resolution.Some? &&
          (rows[0].resolution.value.Split? ==> 0.0 <= rows[0].resolution.value.sellerPercent <= 100.0))
    case _ => |rows| == 0
  }

  ghost predicate EscrowOk(s: Snapshot, e: nat)
    requires e < |s.escrows|
  {
    var row, rows := s.escrows[e], DisputesOf(s.disputes, e);
    && row.amount > 0.0 && row.buyer != row.seller
    && e in s.locks
    && s.locks[e] == LockRow(row.buyer, row.asset, row.amount, if OpenStatus(row.status) then Locked else Released)
    && DisputesFit(rows, row.status)
    && Sum(OfRow(EscrowRef, e), s.ledger) == EscrowFootprint(s, e)
  }

  ghost predicate WithdrawalOk(s: Snapshot, w: nat)
    requires w < |s.withdrawals|
  {
    var row := s.withdrawals[w];
    && row.amount > 0.0 && row.key != ""
    && row.platformFee >= 0.0 && Exact(row.asset, row.platformFee)
    && row.networkFee >= 0.0 && Exact(row.asset, row.networkFee)
    && (row.actualFee.Some? ==> row.actualFee.value >= 0.0 && Exact(row.asset, row.actualFee.value))
    && (Withdrawals.NetworkBooked(s, w) > 0 ==> row.settled)
    && (row.settled ==> Withdrawals.NetworkBooked(s, w) > 0 || row.networkFee == 0.0)
    && (row.status == Confirmed ==> row.settled && (Withdrawals.FeeBooked(s, w) || row.platformFee == 0.0))
    && Count(OfRowType(WithdrawalRef, w, WITHDRAWAL_RELEASE), s.ledger) == (if row.status == Failed then 1 else 0)
    && Count(OfAccountRowType(PlatformRevenue, WithdrawalRef, w, WITHDRAWAL_PLATFORM_FEE), s.ledger) <= 1
    && Sum(OfRow(WithdrawalRef, w), s.ledger) == WithdrawalFootprint(s, w)
  }

  ghost predicate NoUncheckedDebit(ledger: seq<Entry>) {
    forall u: int, a: Asset :: Sum(OfUserChecked(u, a), ledger) >= 0.0 && Sum(OfUserOverage(u, a), ledger) <= 0.0
  }

  ghost predicate LedgerOk(s: Snapshot) {
    forall i :: 0 <= i < |s.ledger| ==> EntryOk(s, s.ledger[i])
  }

  ghost predicate DepositsOk(chain: string -> Sighting, s: Snapshot) {
    forall d: nat :: d < |s.deposits| ==> DepositOk(chain, s, d)
  }

  ghost predicate EscrowsOk(s: Snapshot) {
    && (forall e: nat :: e < |s.escrows| ==> EscrowOk(s, e))
    && (forall e: nat :: e in s.locks ==> e < |s.escrows|)
    && (forall i :: 0 <= i < |s.disputes| ==> s.disputes[i].escrowId < |s.escrows|)
  }

  ghost predicate WithdrawalsOk(s: Snapshot) {
    forall w: nat :: w < |s.withdrawals| ==> WithdrawalOk(s, w)
  }

  ghost predicate Inv(chain: string -> Sighting, s: Snapshot) {
    LedgerOk(s) && DepositsOk(chain, s) && EscrowsOk(s) && WithdrawalsOk(s) && NoUncheckedDebit(s.ledger)
  }
}
