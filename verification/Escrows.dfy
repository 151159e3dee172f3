/** wallet_service.py: the lock rows behind an escrow. */
module EscrowLocks {
  import opened Tables
  import LedgerService

  function AfterLock(s: Snapshot, e: nat, user: int, asset: Asset, amount: real): Result<Snapshot> {
    if LedgerService.Balance(s, user, asset) < amount then Err(InsufficientBalance)
    else if e in s.locks then Err(DuplicateLock)
    else Ok(s.(locks := s.locks[e := LockRow(user, asset, amount, Locked)],
               ledger := s.ledger + [Entry(User(user), asset, -amount, ESCROW_LOCK, EscrowRef, e)]))
  }

  /** Marks the lock released and books the given entries. */
  function AfterUnlock(s: Snapshot, e: nat, entries: seq<Entry>): Result<Snapshot> {
    if e !in s.locks || s.locks[e].status != Locked then Err(LockMissing)
    else Ok(s.(locks := s.locks[e := s.locks[e].(status := Released)], ledger := s.ledger + entries))
  }

  function ReleaseEntries(e: nat, seller: int, platformFee: real, botFee: real, sellerPayout: real, owner: int,
                          asset: Asset): seq<Entry>
  {
    [Entry(User(seller), asset, sellerPayout, ESCROW_RELEASE, EscrowRef, e),
     Entry(PlatformRevenue, asset, platformFee, PLATFORM_FEE, EscrowRef, e),
     Entry(BotOwnerRevenue(owner), asset, botFee, BOT_FEE, EscrowRef, e)]
  }

  function RefundEntries(s: Snapshot, e: nat): seq<Entry> {
    if e in s.locks
    then [Entry(User(s.locks[e].user), s.locks[e].asset, s.locks[e].amount, ESCROW_UNLOCK, EscrowRef, e)]
    else []
  }

  /** What a service call did: exactly what it should have on success, nothing at all on error. */
  ghost predicate Atomic<T>(before: Snapshot, after: Snapshot, r: Result<T>, spec: Result<Snapshot>) {
    match spec
    case Ok(s) => r.Ok? && after == s
    case Err(error) => r == Err(error) && after == before
  }

  method LockForEscrow(db: Database, e: nat, user: int, asset: Asset, amount: real) returns (r: Result<()>)
    modifies db
    ensures Atomic(old(db.Now()), db.Now(), r, AfterLock(old(db.Now()), e, user, asset, amount))
  {
    var available := LedgerService.AvailableBalance(db, user, asset);
    if available < amount {
      return Err(InsufficientBalance);
    }
    if e in db.locks {
      return Err(DuplicateLock);
    }
    db.locks := db.locks[e := LockRow(user, asset, amount, Locked)];
    LedgerService.AddEntry(db, User(user), asset, -amount, ESCROW_LOCK, EscrowRef, e);
    return Ok(());
  }

  method ReleaseEscrow(db: Database, e: nat, seller: int, platformFee: real, botFee: real, sellerPayout: real,
                       owner: int, asset: Asset) returns (r: Result<()>)
    modifies db
    ensures Atomic(old(db.Now()), db.Now(), r,
                      AfterUnlock(old(db.Now()), e,
                                  ReleaseEntries(e, seller, platformFee, botFee, sellerPayout, owner, asset)))
  {
    if e !in db.locks || db.locks[e].status != Locked {
      return Err(LockMissing);
    }
    db.locks := db.locks[e := db.locks[e].(status := Released)];
    LedgerService.AddEntry(db, User(seller), asset, sellerPayout, ESCROW_RELEASE, EscrowRef, e);
    LedgerService.AddEntry(db, PlatformRevenue, asset, platformFee, PLATFORM_FEE, EscrowRef, e);
    LedgerService.AddEntry(db, BotOwnerRevenue(owner), asset, botFee, BOT_FEE, EscrowRef, e);
    assert db.ledger == old(db.ledger) + ReleaseEntries(e, seller, platformFee, botFee, sellerPayout, owner, asset);
    return Ok(());
  }

  method CancelEscrowLock(db: Database, e: nat) returns (r: Result<()>)
    modifies db
    ensures Atomic(old(db.Now()), db.Now(), r, AfterUnlock(old(db.Now()), e, RefundEntries(old(db.Now()), e)))
  {
    if e !in db.locks || db.locks[e].status != Locked {
      return Err(LockMissing);
    }
    var lock := db.locks[e];
    db.locks := db.locks[e := lock.(status := Released)];
    LedgerService.AddEntry(db, User(lock.user), lock.asset, lock.amount, ESCROW_UNLOCK, EscrowRef, e);
    return Ok(());
  }
}

/** escrow_service.py and the two handlers of bot.py that keep the mutual cancellation requests. */
module EscrowService {
  import opened Tables
  import opened EscrowLocks
  import FeeService
  import LedgerService
  import Text

  const MIN_ESCROW_USD := 40.0
  const MAX_DESCRIPTION := 500

  predicate MeetsMinimum(cfg: Settings, asset: Asset, amount: real) {
    amount * cfg.price(asset) >= MIN_ESCROW_USD || amount * cfg.fallbackPrice(asset) >= MIN_ESCROW_USD
  }

  predicate Participant(row: EscrowRow, user: int) {
    user == row.buyer || user == row.seller
  }

  function WithStatus(s: Snapshot, e: nat, status: EscrowStatus): Snapshot
    requires e < |s.escrows|
  {
    s.(escrows := s.escrows[e := s.escrows[e].(status := status)])
  }

  // ----- what each operation makes of the tables

  function AfterCreate(cfg: Settings, s: Snapshot, botId: int, buyer: int, seller: int, asset: Asset, amount: real,
                       description: string): Result<Snapshot>
  {
    if botId !in s.tenants then Err(TenantNotFound)
    else if buyer == seller then Err(SelfDeal)
    else if !MeetsMinimum(cfg, asset, amount) then Err(BelowMinimum)
    else if Text.Strip(description) == [] || |Text.Strip(description)| > MAX_DESCRIPTION then Err(BadDescription)
    else
      var fees :- FeeService.CalculateTotalFees(amount, cfg.platformPct, s.tenants[botId].extraFeePct);
      AfterLock(s.(escrows := s.escrows + [EscrowRow(botId, buyer, seller, asset, amount, EscrowStatus.Pending)]),
                |s.escrows|, buyer, asset, amount)
  }

  function AfterAccept(s: Snapshot, e: nat, seller: int): Result<Snapshot> {
    if e >= |s.escrows| then Err(EscrowNotFound)
    else if s.escrows[e].status != EscrowStatus.Pending then Err(WrongStatus)
    else if s.escrows[e].seller != seller then Err(NotAllowed)
    else Ok(WithStatus(s, e, Active))
  }

  /** The fees shown for an escrow, computed from its tenant as stored now. */
  function FeesShown(cfg: Settings, s: Snapshot, e: nat): Result<FeeService.FeeBreakdown>
    requires e < |s.escrows|
  {
    var row := s.escrows[e];
    if row.botId !in s.tenants then Err(TenantNotFound)
    else FeeService.CalculateTotalFees(row.amount, cfg.platformPct, s.tenants[row.botId].extraFeePct)
  }

  /** The fee split booked when an escrow of this amount is paid out. */
  function AfterPayout(cfg: Settings, s: Snapshot, e: nat): Result<Snapshot>
    requires e < |s.escrows|
  {
    var row := s.escrows[e];
    if row.botId !in s.tenants then Err(TenantNotFound)
    else
      var tenant := s.tenants[row.botId];
      var fees :- FeeService.CalculateTotalFees(row.amount, cfg.platformPct, tenant.extraFeePct);
      AfterUnlock(s, e, ReleaseEntries(e, row.seller, fees.platformFee, fees.botFee, fees.sellerPayout, tenant.owner,
                                       row.asset))
  }

  function AfterRelease(cfg: Settings, s: Snapshot, e: nat, actor: int): Result<Snapshot> {
    if e >= |s.escrows| then Err(EscrowNotFound)
    else if s.escrows[e].status != Active then Err(WrongStatus)
    else if s.escrows[e].buyer != actor then Err(NotAllowed)
    else
      var paid :- AfterPayout(cfg, s, e);
      Ok(WithStatus(paid, e, Completed))
  }

  function AfterDispute(s: Snapshot, e: nat, openedBy: int): Result<Snapshot> {
    if e >= |s.escrows| then Err(EscrowNotFound)
    else if s.escrows[e].status != EscrowStatus.Pending && s.escrows[e].status != Active then Err(WrongStatus)
    else if !Participant(s.escrows[e], openedBy) then Err(NotAllowed)
    else Ok(WithStatus(s, e, Disputed).(disputes := s.disputes + [DisputeRow(e, openedBy, None)]))
  }

  function AfterCancel(s: Snapshot, e: nat, actor: int): Result<Snapshot> {
    if e >= |s.escrows| then Err(EscrowNotFound)
    else if s.escrows[e].status != EscrowStatus.Pending then Err(WrongStatus)
    else if !Participant(s.escrows[e], actor) then Err(NotAllowed)
    else
      var unlocked :- AfterUnlock(s, e, RefundEntries(s, e));
      Ok(WithStatus(unlocked, e, Cancelled))
  }

  predicate OpenRequest(s: Snapshot, e: nat, requester: int, responder: int) {
    e in s.requests && s.requests[e] == CancelRequest(requester, responder, Open)
  }

  function AfterCancelMutual(s: Snapshot, e: nat, requester: int, responder: int): Result<Snapshot> {
    if e >= |s.escrows| then Err(EscrowNotFound)
    else if s.escrows[e].status != Active then Err(WrongStatus)
    else if !Participant(s.escrows[e], requester) || !Participant(s.escrows[e], responder) then Err(NotAllowed)
    else if requester == responder then Err(NotAllowed)
    else if !OpenRequest(s, e, requester, responder) then Err(NoOpenRequest)
    else
      var unlocked :- AfterUnlock(s, e, RefundEntries(s, e));
      Ok(WithStatus(unlocked, e, Cancelled).(requests := s.requests[e := s.requests[e].(status := Accepted)]))
  }

  /** bot.py esc_active_cancel_handler: a participant of an active escrow asks for cancellation. */
  function AfterRequestCancel(s: Snapshot, e: nat, user: int): Result<Snapshot> {
    if e >= |s.escrows| || s.escrows[e].status != Active then Err(WrongStatus)
    else if !Participant(s.escrows[e], user) then Err(NotAllowed)
    else
      var row := s.escrows[e];
      var responder := if user == row.buyer then row.seller else row.buyer;
      Ok(s.(requests := s.requests[e := CancelRequest(user, responder, Open)]))
  }

  /** bot.py esc_cancel_response_handler: the other participant accepts or declines. */
  function AfterRespondCancel(s: Snapshot, e: nat, user: int, accept: bool): Result<Snapshot> {
    if e >= |s.escrows| || s.escrows[e].status != Active then Err(WrongStatus)
    else if e !in s.requests || s.requests[e].status != Open then Err(NoOpenRequest)
    else
      var req := s.requests[e];
      if req.requester == user then Err(NotAllowed)
      else if !Participant(s.escrows[e], req.requester) ||
        !Participant(s.escrows[e], req.responder) then Err(NotAllowed)
      else if req.responder != user then Err(NotAllowed)
      else if accept then AfterCancelMutual(s, e, req.requester, user)
      else Ok(s.(requests := s.requests[e := req.(status := Declined)]))
  }

  function SplitEntries(cfg: Settings, s: Snapshot, e: nat, sellerPercent: real): Result<seq<Entry>>
    requires e < |s.escrows|
  {
    var row := s.escrows[e];
    if e !in s.locks || s.locks[e].status != Locked then Err(LockMissing)
    else if row.botId !in s.tenants then Err(TenantNotFound)
    else
      var tenant := s.tenants[row.botId];
      var sellerPart := SellerPart(s.locks[e].amount, sellerPercent);
      var fees :- FeeService.CalculateTotalFees(sellerPart, cfg.platformPct, tenant.extraFeePct);
      Ok([Entry(User(row.seller), row.asset, fees.sellerPayout, ESCROW_RELEASE, EscrowRef, e),
          Entry(User(row.buyer), row.asset, s.locks[e].amount - sellerPart, ADJUSTMENT, EscrowRef, e),
          Entry(PlatformRevenue, row.asset, fees.platformFee, PLATFORM_FEE, EscrowRef, e),
          Entry(BotOwnerRevenue(tenant.owner), row.asset, fees.botFee, BOT_FEE, EscrowRef, e)])
  }

  function SellerPart(amount: real, sellerPercent: real): real {
    amount * sellerPercent / 100.0
  }

  /** Every open dispute of the escrow gets the resolution; the others stay as they are. */
  function Resolved(rows: seq<DisputeRow>, e: nat, resolution: Resolution): (r: seq<DisputeRow>)
    ensures |r| == |rows|
  {
    seq(|rows|, i requires 0 <= i < |rows| =>
      if rows[i].escrowId == e && rows[i].resolution.None? then rows[i].(resolution := Some(resolution)) else rows[i])
  }

  function AfterResolve(cfg: Settings, s: Snapshot, e: nat, admin: int, resolution: Resolution): Result<Snapshot> {
    if admin !in cfg.moderators then Err(NotAllowed)
    else if e >= |s.escrows| then Err(EscrowNotFound)
    else if s.escrows[e].status != Disputed then Err(WrongStatus)
    else
      var settled :- match resolution {
        case ReleaseSeller => AfterPayout(cfg, s, e)
        case RefundBuyer => AfterUnlock(s, e, RefundEntries(s, e))
        case Split(pct) =>
          var entries :- SplitEntries(cfg, s, e, pct);
          AfterUnlock(s, e, entries)
      };
      Ok(WithStatus(settled, e, Completed).(disputes := Resolved(s.disputes, e, resolution)))
  }

  // ----- the service methods; BEGIN or SAVEPOINT, the statements one by one, rollback on error

  method SetStatus(db: Database, e: nat, status: EscrowStatus)
    requires e < |db.escrows|
    modifies db`escrows
    ensures db.Now() == WithStatus(old(db.Now()), e, status)
  {
    db.escrows := db.escrows[e := db.escrows[e].(status := status)];
  }

  method CreateEscrow(db: Database, cfg: Settings, botId: int, buyer: int, seller: int, asset: Asset, amount: real,
                      description: string) returns (r: Result<nat>)
    modifies db
    ensures Atomic(old(db.Now()), db.Now(), r,
                      AfterCreate(cfg, old(db.Now()), botId, buyer, seller, asset, amount, description))
    ensures r.Ok? ==> r.value == |old(db.escrows)|
  {
    if botId !in db.tenants {
      return Err(TenantNotFound);
    }
    if buyer == seller {
      return Err(SelfDeal);
    }
    if !MeetsMinimum(cfg, asset, amount) {
      return Err(BelowMinimum);
    }
    var text := Text.Strip(description);
    if text == [] || |text| > MAX_DESCRIPTION {
      return Err(BadDescription);
    }
    var fees := FeeService.CalculateTotalFees(amount, cfg.platformPct, db.tenants[botId].extraFeePct);
    if fees.Err? {
      return Err(fees.error);
    }
    var savepoint := db.Now();
    var available := LedgerService.AvailableBalance(db, buyer, asset);
    if available < amount {
      return Err(InsufficientBalance);
    }
    var e := |db.escrows|;
    db.escrows := db.escrows + [EscrowRow(botId, buyer, seller, asset, amount, EscrowStatus.Pending)];
    var locked := LockForEscrow(db, e, buyer, asset, amount);
    if locked.Err? {
      db.Rollback(savepoint);
      return Err(locked.error);
    }
    return Ok(e);
  }

  /** The fees are computed after the commit: when that raises, the escrow is active all the same. */
  method AcceptEscrow(db: Database, cfg: Settings, e: nat, seller: int) returns (r: Result<FeeService.FeeBreakdown>)
    modifies db
    ensures match AfterAccept(old(db.Now()), e, seller)
            case Err(error) => r == Err(error) && db.Now() == old(db.Now())
            case Ok(s) => db.Now() == s && r == FeesShown(cfg, s, e)
  {
    if e >= |db.escrows| {
      return Err(EscrowNotFound);
    }
    if db.escrows[e].status != EscrowStatus.Pending {
      return Err(WrongStatus);
    }
    if db.escrows[e].seller != seller {
      return Err(NotAllowed);
    }
    SetStatus(db, e, Active);
    var row := db.escrows[e];
    if row.botId !in db.tenants {
      return Err(TenantNotFound);
    }
    r := FeeService.CalculateTotalFees(row.amount, cfg.platformPct, db.tenants[row.botId].extraFeePct);
  }

  method Payout(db: Database, cfg: Settings, e: nat) returns (r: Result<()>)
    requires e < |db.escrows|
    modifies db
    ensures Atomic(old(db.Now()), db.Now(), r, AfterPayout(cfg, old(db.Now()), e))
  {
    var row := db.escrows[e];
    if row.botId !in db.tenants {
      return Err(TenantNotFound);
    }
    var tenant := db.tenants[row.botId];
    var fees := FeeService.CalculateTotalFees(row.amount, cfg.platformPct, tenant.extraFeePct);
    if fees.Err? {
      return Err(fees.error);
    }
    r := ReleaseEscrow(db, e, row.seller, fees.value.platformFee, fees.value.botFee, fees.value.sellerPayout,
                       tenant.owner, row.asset);
  }

  method Release(db: Database, cfg: Settings, e: nat, actor: int) returns (r: Result<()>)
    modifies db
    ensures Atomic(old(db.Now()), db.Now(), r, AfterRelease(cfg, old(db.Now()), e, actor))
  {
    if e >= |db.escrows| {
      return Err(EscrowNotFound);
    }
    if db.escrows[e].status != Active {
      return Err(WrongStatus);
    }
    if db.escrows[e].buyer != actor {
      return Err(NotAllowed);
    }
    r := Payout(db, cfg, e);
    if r.Ok? {
      SetStatus(db, e, Completed);
    }
  }

  method Dispute(db: Database, e: nat, openedBy: int) returns (r: Result<()>)
    modifies db
    ensures Atomic(old(db.Now()), db.Now(), r, AfterDispute(old(db.Now()), e, openedBy))
  {
    if e >= |db.escrows| {
      return Err(EscrowNotFound);
    }
    if db.escrows[e].status != EscrowStatus.Pending && db.escrows[e].status != Active {
      return Err(WrongStatus);
    }
    if !Participant(db.escrows[e], openedBy) {
      return Err(NotAllowed);
    }
    SetStatus(db, e, Disputed);
    db.disputes := db.disputes + [DisputeRow(e, openedBy, None)];
    return Ok(());
  }

  method CancelEscrow(db: Database, e: nat, actor: int) returns (r: Result<()>)
    modifies db
    ensures Atomic(old(db.Now()), db.Now(), r, AfterCancel(old(db.Now()), e, actor))
  {
    if e >= |db.escrows| {
      return Err(EscrowNotFound);
    }
    if db.escrows[e].status != EscrowStatus.Pending {
      return Err(WrongStatus);
    }
    if !Participant(db.escrows[e], actor) {
      return Err(NotAllowed);
    }
    r := CancelEscrowLock(db, e);
    if r.Ok? {
      SetStatus(db, e, Cancelled);
    }
  }

  method CancelEscrowMutual(db: Database, e: nat, requester: int, responder: int) returns (r: Result<()>)
    modifies db
    ensures Atomic(old(db.Now()), db.Now(), r, AfterCancelMutual(old(db.Now()), e, requester, responder))
  {
    if e >= |db.escrows| {
      return Err(EscrowNotFound);
    }
    var row := db.escrows[e];
    if row.status != Active {
      return Err(WrongStatus);
    }
    if !Participant(row, requester) || !Participant(row, responder) || requester == responder {
      return Err(NotAllowed);
    }
    if !OpenRequest(db.Now(), e, requester, responder) {
      return Err(NoOpenRequest);
    }
    r := CancelEscrowLock(db, e);
    if r.Ok? {
      SetStatus(db, e, Cancelled);
      db.requests := db.requests[e := db.requests[e].(status := Accepted)];
    }
  }

  method RequestCancel(db: Database, e: nat, user: int) returns (r: Result<()>)
    modifies db
    ensures Atomic(old(db.Now()), db.Now(), r, AfterRequestCancel(old(db.Now()), e, user))
  {
    if e >= |db.escrows| || db.escrows[e].status != Active {
      return Err(WrongStatus);
    }
    var row := db.escrows[e];
    if user != row.buyer && user != row.seller {
      return Err(NotAllowed);
    }
    var responder := if user == row.buyer then row.seller else row.buyer;
    db.requests := db.requests[e := CancelRequest(user, responder, Open)];
    return Ok(());
  }

  method RespondCancel(db: Database, e: nat, user: int, accept: bool) returns (r: Result<()>)
    modifies db
    ensures Atomic(old(db.Now()), db.Now(), r, AfterRespondCancel(old(db.Now()), e, user, accept))
  {
    if e >= |db.escrows| || db.escrows[e].status != Active {
      return Err(WrongStatus);
    }
    if e !in db.requests || db.requests[e].status != Open {
      return Err(NoOpenRequest);
    }
    var row, req := db.escrows[e], db.requests[e];
    if req.requester == user || !Participant(row, req.requester) || !Participant(row, req.responder)
       || req.responder != user {
      return Err(NotAllowed);
    }
    if accept {
      r := CancelEscrowMutual(db, e, req.requester, user);
    } else {
      db.requests := db.requests[e := req.(status := Declined)];
      r := Ok(());
    }
  }

  method ResolveSplit(db: Database, cfg: Settings, e: nat, sellerPercent: real) returns (r: Result<()>)
    requires e < |db.escrows|
    modifies db
    ensures Atomic(old(db.Now()), db.Now(), r,
                      match SplitEntries(cfg, old(db.Now()), e, sellerPercent)
                      case Err(error) => Err(error)
                      case Ok(entries) => AfterUnlock(old(db.Now()), e, entries))
  {
    if e !in db.locks || db.locks[e].status != Locked {
      return Err(LockMissing);
    }
    var row, lock := db.escrows[e], db.locks[e];
    if row.botId !in db.tenants {
      return Err(TenantNotFound);
    }
    var sellerPart := SellerPart(lock.amount, sellerPercent);
    var buyerPart := lock.amount - sellerPart;
    var tenant := db.tenants[row.botId];
    var fees := FeeService.CalculateTotalFees(sellerPart, cfg.platformPct, tenant.extraFeePct);
    if fees.Err? {
      return Err(fees.error);
    }
    db.locks := db.locks[e := lock.(status := Released)];
    LedgerService.AddEntry(db, User(row.seller), row.asset, fees.value.sellerPayout, ESCROW_RELEASE, EscrowRef, e);
    LedgerService.AddEntry(db, User(row.buyer), row.asset, buyerPart, ADJUSTMENT, EscrowRef, e);
    LedgerService.AddEntry(db, PlatformRevenue, row.asset, fees.value.platformFee, PLATFORM_FEE, EscrowRef, e);
    LedgerService.AddEntry(db, BotOwnerRevenue(tenant.owner), row.asset, fees.value.botFee, BOT_FEE, EscrowRef, e);
    assert db.ledger == old(db.ledger) + SplitEntries(cfg, old(db.Now()), e, sellerPercent).value;
    return Ok(());
  }

  method ResolveDispute(db: Database, cfg: Settings, e: nat, admin: int, resolution: Resolution) returns (r: Result<()>)
    modifies db
    ensures Atomic(old(db.Now()), db.Now(), r, AfterResolve(cfg, old(db.Now()), e, admin, resolution))
  {
    if admin !in cfg.moderators {
      return Err(NotAllowed);
    }
    if e >= |db.escrows| {
      return Err(EscrowNotFound);
    }
    if db.escrows[e].status != Disputed {
      return Err(WrongStatus);
    }
    match resolution {
      case ReleaseSeller => r := Payout(db, cfg, e);
      case RefundBuyer => r := CancelEscrowLock(db, e);
      case Split(pct) => r := ResolveSplit(db, cfg, e, pct);
    }
    if r.Ok? {
      SetStatus(db, e, Completed);
      db.disputes := Resolved(db.disputes, e, resolution);
    }
  }
}
