/** signer/withdrawal_provider.py: what a provider answer may look like and which answers reach the signer. */
module ProviderReplies {
  import opened Tables
  import Text

  datatype ReplyStatus =
    | StSubmitted | StBroadcasted | StConfirmed | StRejected | StPermanentFailure
    | StRetryable | StAmbiguous | StUnknown | StOther | StMissing

  datatype AssetField = NoAsset | KnownAsset(asset: Asset) | UnsupportedAsset

  /** metadata: absent or not an object, unusable (wrong asset, not a decimal, too large), or an actual network fee. */
  datatype FeeField = NoFee | BadFee | ActualFee(raw: real)

  datatype Body = Body(status: ReplyStatus, asset: AssetField, providerRef: string, txid: string, fee: FeeField)

  /** The parsed result; "" stands for a missing provider_ref or txid. */
  datatype ExecutionResult = ExecutionResult(
    status: ReplyStatus, asset: Option<Asset>, providerRef: string, txid: string, fee: FeeField)

  predicate OnChain(status: ReplyStatus) {
    status == StBroadcasted || status == StConfirmed
  }

  /** Any error here is a RetryableSignerError. */
  function ParseResult(body: Body): Option<ExecutionResult> {
    var txid, ref := Text.Strip(body.txid), Text.Strip(body.providerRef);
    if body.status == StMissing || body.asset == UnsupportedAsset then None
    else if (body.status == StSubmitted || OnChain(body.status)) && ref == "" then None
    else if OnChain(body.status) && txid == "" then None
    else Some(ExecutionResult(body.status, if body.asset.KnownAsset? then Some(body.asset.asset) else None,
                              ref, txid, body.fee))
  }
}

/** wallet_service.py: withdrawal rows, their reservation and everything booked for them. */
module Withdrawals {
  import opened Tables
  import opened WalletFees
  import opened ProviderReplies
  import Rounding
  import LedgerService
  import EscrowLocks
  import Text

  const DAY := 86400

  predicate InFlight(status: WithdrawalStatus) {
    status == WPending || status == Submitted || status == Broadcasted || status == SignerRetry
  }

  predicate CountsSince(row: WithdrawalRow, user: int, cutoff: int) {
    row.user == user && InFlight(row.status) && row.createdAt >= cutoff
  }

  function UsdValue(cfg: Settings, asset: Asset, amount: real): real {
    amount * cfg.price(asset)
  }

  /** withdrawal_minimum_usd, rounded to cents. */
  function MinimumUsd(cfg: Settings): real {
    Rounding.RoundHalfUp(cfg.minWithdrawalUsd, 0.01)
  }

  function WithdrawnUsd(cfg: Settings, rows: seq<WithdrawalRow>, user: int, cutoff: int): real {
    if rows == [] then 0.0
    else
      var row := rows[|rows| - 1];
      WithdrawnUsd(cfg, rows[..|rows| - 1], user, cutoff) +
      if CountsSince(row, user, cutoff) then UsdValue(cfg, row.asset, row.amount) else 0.0
  }

  /** created_at of the user's latest withdrawal. */
  function LastRequestAt(rows: seq<WithdrawalRow>, user: int): Option<int> {
    if rows == [] then None
    else if rows[|rows| - 1].user == user then Some(rows[|rows| - 1].createdAt)
    else LastRequestAt(rows[..|rows| - 1], user)
  }

  /** The key holds the row id in clear, next to a digest of the request. */
  function BuildIdempotencyKey(w: nat, digest: string): string {
    "wdrow:" + Text.NatText(w) + ":" + digest
  }

  lemma KeyNamesRow(w: nat, v: nat, d: string, e: string)
    requires BuildIdempotencyKey(w, d) == BuildIdempotencyKey(v, e)
    ensures w == v && d == e
  {
    var rest := (i: nat, x: string) => Text.NatText(i) + ":" + x;
    assert BuildIdempotencyKey(w, d)[6..] == rest(w, d);
    assert BuildIdempotencyKey(v, e)[6..] == rest(v, e);
    Text.NumberThenColon(w, v, d, e);
  }

  predicate HexDigit(c: char) {
    Text.IsDigit(c) || 'a' <= c <= 'f' || 'A' <= c <= 'F'
  }

  /** The wallet knows no txid format for SOL and rejects every one. */
  predicate TxidSane(asset: Asset, txid: string) {
    match asset
    case BTC => |txid| == 64 && forall i :: 0 <= i < |txid| ==> HexDigit(txid[i])
    case LTC => |txid| == 64 && forall i :: 0 <= i < |txid| ==> HexDigit(txid[i])
    case ETH => HexAfterPrefix(txid)
    case USDT => HexAfterPrefix(txid)
    case SOL => false
  }

  predicate HexAfterPrefix(txid: string) {
    |txid| == 66 && txid[0] == '0' && (txid[1] == 'x' || txid[1] == 'X') && forall i :: 2 <= i < |txid| ==>
      HexDigit(txid[i])
  }

  // ----- request

  function NewRow(cfg: Settings, w: nat, user: int, asset: Asset, amount: real, destination: string, digest: string,
                  now: int): WithdrawalRow
  {
    WithdrawalRow(user, asset, amount, WithdrawalPlatformFee(cfg, asset, amount), WithdrawalNetworkFee(cfg, asset),
                  None, false, destination, WPending, None, "", BuildIdempotencyKey(w, digest), now)
  }

  function ReserveEntry(cfg: Settings, w: nat, user: int, asset: Asset, amount: real): Entry {
    Entry(User(user), asset, -WithdrawalTotalDebit(cfg, asset, amount), WITHDRAWAL_RESERVE, WithdrawalRef, w)
  }

  /** The first check that turns a request down, if any. */
  function Refusal(cfg: Settings, s: Snapshot, user: int, asset: Asset, amount: real, destination: string,
                   now: int): Option<Error>
  {
    var last := LastRequestAt(s.withdrawals, user);
    var usd := UsdValue(cfg, asset, amount);
    if !cfg.withdrawalsEnabled then Some(WithdrawalsDisabled)
    else if amount <= 0.0 then Some(AmountNotPositive)
    else if !cfg.validAddress(asset, destination) then Some(BadAddress)
    else if user in s.frozen then Some(Frozen)
    else if cfg.minInterval > 0 && last.Some? && now - last.value < cfg.minInterval then Some(RateLimited)
    else if cfg.minWithdrawalUsd <= 0.0 || usd < MinimumUsd(cfg) then Some(BelowMinimum)
    else if WithdrawnUsd(cfg, s.withdrawals, user, now - DAY) + usd > cfg.dailyLimit then Some(DailyLimit)
    else if LedgerService.Balance(s, user, asset) < WithdrawalTotalDebit(cfg, asset, amount)
      then Some(InsufficientBalance)
    else None
  }

  function AfterRequest(cfg: Settings, s: Snapshot, user: int, asset: Asset, amount: real, destination: string,
                        digest: string, now: int): Result<Snapshot>
  {
    var refusal := Refusal(cfg, s, user, asset, amount, destination, now);
    var w := |s.withdrawals|;
    if refusal.Some? then Err(refusal.value)
    else Ok(s.(withdrawals := s.withdrawals + [NewRow(cfg, w, user, asset, amount, destination, digest, now)],
               ledger := s.ledger + [ReserveEntry(cfg, w, user, asset, amount)]))
  }

  // ----- bookings

  function WithRow(s: Snapshot, w: nat, row: WithdrawalRow): Snapshot
    requires w < |s.withdrawals|
  {
    s.(withdrawals := s.withdrawals[w := row])
  }

  predicate FeeBooked(s: Snapshot, w: nat) {
    LedgerService.Count(LedgerService.OfAccountRowType(PlatformRevenue, WithdrawalRef, w, WITHDRAWAL_PLATFORM_FEE),
                        s.ledger) > 0
  }

  /** How many network-fee entries of any of the three kinds are booked. */
  function NetworkBooked(s: Snapshot, w: nat): nat {
    LedgerService.Count(LedgerService.OfRowType(WithdrawalRef, w, WITHDRAWAL_NETWORK_FEE), s.ledger) +
    LedgerService.Count(LedgerService.OfRowType(WithdrawalRef, w, WITHDRAWAL_NETWORK_FEE_REFUND), s.ledger) +
    LedgerService.Count(LedgerService.OfRowType(WithdrawalRef, w, WITHDRAWAL_NETWORK_FEE_ADJUSTMENT), s.ledger)
  }

  function AfterBookFee(s: Snapshot, w: nat): Snapshot
    requires w < |s.withdrawals|
  {
    var row := s.withdrawals[w];
    if FeeBooked(s, w) || row.platformFee <= 0.0 then s
    else s.(ledger := s.ledger +
            [Entry(PlatformRevenue, row.asset, row.platformFee, WITHDRAWAL_PLATFORM_FEE, WithdrawalRef, w)])
  }

  /** The platform takes the actual fee, the user gets or pays the difference to the estimate. */
  function NetworkEntries(row: WithdrawalRow, w: nat, actual: real, delta: real): seq<Entry> {
    (if actual > 0.0 then [Entry(PlatformRevenue, row.asset, actual, WITHDRAWAL_NETWORK_FEE, WithdrawalRef, w)]
     else []) +
    (if delta < 0.0 then [Entry(User(row.user), row.asset, -delta, WITHDRAWAL_NETWORK_FEE_REFUND, WithdrawalRef, w)]
     else if delta > 0.0
       then [Entry(User(row.user), row.asset, -delta, WITHDRAWAL_NETWORK_FEE_ADJUSTMENT, WithdrawalRef, w)]
     else [])
  }

  function ActualFeeOf(row: WithdrawalRow): real {
    QuantizeAsset(row.asset, if row.actualFee.Some? then row.actualFee.value else EstimateOf(row))
  }

  function EstimateOf(row: WithdrawalRow): real {
    QuantizeAsset(row.asset, row.networkFee)
  }

  function AfterSettle(s: Snapshot, w: nat, force: bool): Snapshot
    requires w < |s.withdrawals|
  {
    var row := s.withdrawals[w];
    if !force && (row.settled || row.actualFee.None?) then s
    else if NetworkBooked(s, w) > 0 then s
    else
      var actual := ActualFeeOf(row);
      var delta := QuantizeAsset(row.asset, actual - EstimateOf(row));
      WithRow(s, w, row.(settled := true)).(ledger := s.ledger + NetworkEntries(row, w, actual, delta))
  }

  // ----- status changes

  function Coalesce(stored: string, incoming: string): string {
    if stored == "" then incoming else stored
  }

  function AfterSubmitted(s: Snapshot, w: nat, ref: string): Snapshot
    requires w < |s.withdrawals|
  {
    var row := s.withdrawals[w];
    WithRow(s, w, row.(status := Submitted, providerRef := Coalesce(row.providerRef, ref)))
  }

  function AfterBroadcasted(s: Snapshot, w: nat, txid: string, ref: string): Snapshot
    requires w < |s.withdrawals|
  {
    var booked := AfterBookFee(s, w);
    var row := s.withdrawals[w];
    AfterSettle(WithRow(booked, w,
                        row.(status := Broadcasted, txid := Some(txid), providerRef := Coalesce(row.providerRef, ref))),
                w, false)
  }

  function AfterConfirmed(s: Snapshot, w: nat, txid: string, ref: string): Snapshot
    requires w < |s.withdrawals|
  {
    var booked := AfterBookFee(s, w);
    var row := s.withdrawals[w];
    AfterSettle(WithRow(booked, w,
                        row.(status := Confirmed, txid := Some(txid), providerRef := Coalesce(row.providerRef, ref))),
                w, true)
  }

  function AfterSignerRetry(s: Snapshot, w: nat): Snapshot
    requires w < |s.withdrawals|
  {
    WithRow(s, w, s.withdrawals[w].(status := SignerRetry, txid := None))
  }

  function ReleaseTotal(row: WithdrawalRow): real {
    row.amount + row.platformFee + row.networkFee
  }

  /** What was taken from the balance when the row was requested, under the settings of that time. */
  function Reserved(row: WithdrawalRow): real {
    QuantizeAsset(row.asset, ReleaseTotal(row))
  }

  function AfterFailed(s: Snapshot, w: nat): Snapshot
    requires w < |s.withdrawals|
  {
    var row := s.withdrawals[w];
    WithRow(s, w, row.(status := Failed, txid := None))
      .(ledger := s.ledger +
        [Entry(User(row.user), row.asset, ReleaseTotal(row), WITHDRAWAL_RELEASE, WithdrawalRef, w)])
  }

  /** bot.py signer_retry_action: an admin requeues or fails a row that is in signer_retry. */
  function AfterAdminAction(s: Snapshot, w: nat, requeue: bool): Result<Snapshot> {
    if w >= |s.withdrawals| then Err(WithdrawalNotFound)
    else if s.withdrawals[w].status != SignerRetry then Err(WrongStatus)
    else if requeue then Ok(WithRow(s, w, s.withdrawals[w].(status := WPending)))
    else Ok(AfterFailed(s, w))
  }

  /** The trigger that keeps one provider_ref from serving two withdrawals. */
  predicate RefTaken(s: Snapshot, w: nat, ref: string) {
    exists v :: 0 <= v < |s.withdrawals| && v != w && s.withdrawals[v].providerRef == ref
  }

  function AfterRecordResult(s: Snapshot, w: nat, key: string, result: ExecutionResult): Result<Snapshot>
    requires w < |s.withdrawals|
  {
    var row := s.withdrawals[w];
    var ref := Coalesce(row.providerRef, result.providerRef);
    if row.key != "" && key != "" && row.key != key then Err(ProviderMismatch)
    else if row.providerRef != "" && result.providerRef != "" && row.providerRef != result.providerRef
      then Err(ProviderMismatch)
    else if result.asset.Some? && result.asset.value != row.asset then Err(ProviderMismatch)
    else if result.fee.BadFee? || (result.fee.ActualFee? && result.fee.raw < 0.0) then Err(BadMetadata)
    else if OnChain(result.status) && !TxidSane(row.asset, result.txid) then Err(MalformedTxid)
    else if ref != "" && RefTaken(s, w, ref) then Err(ProviderMismatch)
    else Ok(WithRow(s, w, row.(providerRef := ref, key := Coalesce(row.key, key),
                               actualFee := if result.fee.ActualFee? then Some(QuantizeAsset(row.asset, result.fee.raw))
                                            else row.actualFee)))
  }

  // ----- methods

  method WithdrawnUsdLast24h(db: Database, cfg: Settings, user: int, now: int) returns (total: real)
    ensures total == WithdrawnUsd(cfg, db.withdrawals, user, now - DAY)
  {
    total := 0.0;
    for i := 0 to |db.withdrawals|
      invariant total == WithdrawnUsd(cfg, db.withdrawals[..i], user, now - DAY)
    {
      var row := db.withdrawals[i];
      assert db.withdrawals[..i + 1][..i] == db.withdrawals[..i];
      if CountsSince(row, user, now - DAY) {
        total := total + UsdValue(cfg, row.asset, row.amount);
      }
    }
    assert db.withdrawals[..|db.withdrawals|] == db.withdrawals;
  }

  method RequestWithdrawal(db: Database, cfg: Settings, user: int, asset: Asset, amount: real, destination: string,
                           digest: string, now: int) returns (r: Result<nat>)
    modifies db
    ensures EscrowLocks.Atomic(old(db.Now()), db.Now(), r,
                               AfterRequest(cfg, old(db.Now()), user, asset, amount, destination, digest, now))
    ensures r.Ok? ==> r.value == |old(db.withdrawals)|
  {
    hide WithdrawalPlatformFee, WithdrawalNetworkFee, WithdrawalTotalDebit, MinimumUsd, UsdValue, BuildIdempotencyKey;
    if !cfg.withdrawalsEnabled {
      return Err(WithdrawalsDisabled);
    }
    if amount <= 0.0 {
      return Err(AmountNotPositive);
    }
    if !cfg.validAddress(asset, destination) {
      return Err(BadAddress);
    }
    if user in db.frozen {
      return Err(Frozen);
    }
    var last := LastRequestAt(db.withdrawals, user);
    if cfg.minInterval > 0 && last.Some? && now - last.value < cfg.minInterval {
      return Err(RateLimited);
    }
    var usd := UsdValue(cfg, asset, amount);
    if cfg.minWithdrawalUsd <= 0.0 || usd < MinimumUsd(cfg) {
      return Err(BelowMinimum);
    }
    var withdrawn := WithdrawnUsdLast24h(db, cfg, user, now);
    if withdrawn + usd > cfg.dailyLimit {
      return Err(DailyLimit);
    }
    var fee, network := WithdrawalPlatformFee(cfg, asset, amount), WithdrawalNetworkFee(cfg, asset);
    var total := WithdrawalTotalDebit(cfg, asset, amount);
    var available := LedgerService.AvailableBalance(db, user, asset);
    if available < total {
      return Err(InsufficientBalance);
    }
    var w := |db.withdrawals|;
    db.withdrawals := db.withdrawals +
      [WithdrawalRow(user, asset, amount, fee, network, None, false, destination, WPending, None, "", "", now)];
    db.withdrawals := db.withdrawals[w := db.withdrawals[w].(key := BuildIdempotencyKey(w, digest))];
    LedgerService.AddEntry(db, User(user), asset, -total, WITHDRAWAL_RESERVE, WithdrawalRef, w);
    return Ok(w);
  }

  method SetRow(db: Database, w: nat, row: WithdrawalRow)
    requires w < |db.withdrawals|
    modifies db`withdrawals
    ensures db.Now() == WithRow(old(db.Now()), w, row)
  {
    db.withdrawals := db.withdrawals[w := row];
  }

  method BookWithdrawalPlatformFeeIfNeeded(db: Database, w: nat)
    requires w < |db.withdrawals|
    modifies db
    ensures db.Now() == AfterBookFee(old(db.Now()), w)
  {
    var booked := FeeBooked(db.Now(), w);
    if booked {
      return;
    }
    var row := db.withdrawals[w];
    if row.platformFee <= 0.0 {
      return;
    }
    LedgerService.AddEntry(db, PlatformRevenue, row.asset, row.platformFee, WITHDRAWAL_PLATFORM_FEE, WithdrawalRef, w);
  }

  method SettleWithdrawalNetworkFeeIfNeeded(db: Database, w: nat, force: bool)
    requires w < |db.withdrawals|
    modifies db
    ensures db.Now() == AfterSettle(old(db.Now()), w, force)
  {
    hide QuantizeAsset, NetworkBooked;
    var row := db.withdrawals[w];
    if row.settled && !force {
      return;
    }
    var estimate := EstimateOf(row);
    if row.actualFee.None? && !force {
      return;
    }
    var actual := ActualFeeOf(row);
    var delta := QuantizeAsset(row.asset, actual - estimate);
    var existing := NetworkBooked(db.Now(), w);
    if existing > 0 {
      return;
    }
    if actual > 0.0 {
      LedgerService.AddEntry(db, PlatformRevenue, row.asset, actual, WITHDRAWAL_NETWORK_FEE, WithdrawalRef, w);
    }
    if delta < 0.0 {
      LedgerService.AddEntry(db, User(row.user), row.asset, -delta, WITHDRAWAL_NETWORK_FEE_REFUND, WithdrawalRef, w);
    } else if delta > 0.0 {
      LedgerService.AddEntry(db, User(row.user), row.asset, -delta, WITHDRAWAL_NETWORK_FEE_ADJUSTMENT, WithdrawalRef,
                             w);
    }
    SetRow(db, w, row.(settled := true));
    assert db.ledger == old(db.ledger) + NetworkEntries(row, w, actual, delta);
  }

  method MarkSubmitted(db: Database, w: nat, ref: string)
    requires w < |db.withdrawals|
    modifies db
    ensures db.Now() == AfterSubmitted(old(db.Now()), w, ref)
  {
    var row := db.withdrawals[w];
    SetRow(db, w, row.(status := Submitted, providerRef := Coalesce(row.providerRef, ref)));
  }

  method MarkBroadcasted(db: Database, w: nat, txid: string, ref: string)
    requires w < |db.withdrawals|
    modifies db
    ensures db.Now() == AfterBroadcasted(old(db.Now()), w, txid, ref)
  {
    BookWithdrawalPlatformFeeIfNeeded(db, w);
    var row := db.withdrawals[w];
    SetRow(db, w, row.(status := Broadcasted, txid := Some(txid), providerRef := Coalesce(row.providerRef, ref)));
    if row.actualFee.Some? {
      SettleWithdrawalNetworkFeeIfNeeded(db, w, false);
    }
  }

  method MarkConfirmed(db: Database, w: nat, txid: string, ref: string)
    requires w < |db.withdrawals|
    modifies db
    ensures db.Now() == AfterConfirmed(old(db.Now()), w, txid, ref)
  {
    BookWithdrawalPlatformFeeIfNeeded(db, w);
    var row := db.withdrawals[w];
    SetRow(db, w, row.(status := Confirmed, txid := Some(txid), providerRef := Coalesce(row.providerRef, ref)));
    SettleWithdrawalNetworkFeeIfNeeded(db, w, true);
  }

  method MarkSignerRetry(db: Database, w: nat)
    requires w < |db.withdrawals|
    modifies db
    ensures db.Now() == AfterSignerRetry(old(db.Now()), w)
  {
    SetRow(db, w, db.withdrawals[w].(status := SignerRetry, txid := None));
  }

  method MarkFailed(db: Database, w: nat)
    requires w < |db.withdrawals|
    modifies db
    ensures db.Now() == AfterFailed(old(db.Now()), w)
  {
    var row := db.withdrawals[w];
    SetRow(db, w, row.(status := Failed, txid := None));
    LedgerService.AddEntry(db, User(row.user), row.asset, ReleaseTotal(row), WITHDRAWAL_RELEASE, WithdrawalRef, w);
  }

  method SignerRetryAction(db: Database, w: nat, requeue: bool) returns (r: Result<()>)
    modifies db
    ensures EscrowLocks.Atomic(old(db.Now()), db.Now(), r, AfterAdminAction(old(db.Now()), w, requeue))
  {
    if w >= |db.withdrawals| {
      return Err(WithdrawalNotFound);
    }
    if db.withdrawals[w].status != SignerRetry {
      return Err(WrongStatus);
    }
    if requeue {
      SetRow(db, w, db.withdrawals[w].(status := WPending));
    } else {
      MarkFailed(db, w);
    }
    return Ok(());
  }

  method RecordProviderResult(db: Database, w: nat, key: string, result: ExecutionResult) returns (r: Result<()>)
    requires w < |db.withdrawals|
    modifies db
    ensures EscrowLocks.Atomic(old(db.Now()), db.Now(), r, AfterRecordResult(old(db.Now()), w, key, result))
  {
    hide QuantizeAsset, TxidSane, RefTaken;
    var row := db.withdrawals[w];
    if row.key != "" && key != "" && row.key != key {
      return Err(ProviderMismatch);
    }
    if row.providerRef != "" && result.providerRef != "" && row.providerRef != result.providerRef {
      return Err(ProviderMismatch);
    }
    if result.asset.Some? && result.asset.value != row.asset {
      return Err(ProviderMismatch);
    }
    if result.fee.BadFee? || (result.fee.ActualFee? && result.fee.raw < 0.0) {
      return Err(BadMetadata);
    }
    if OnChain(result.status) && !TxidSane(row.asset, result.txid) {
      return Err(MalformedTxid);
    }
    var ref := Coalesce(row.providerRef, result.providerRef);
    if ref != "" && RefTaken(db.Now(), w, ref) {
      return Err(ProviderMismatch);
    }
    if result.fee.ActualFee? {
      row := row.(actualFee := Some(QuantizeAsset(row.asset, result.fee.raw)));
    }
    SetRow(db, w, row.(providerRef := ref, key := Coalesce(row.key, key)));
    return Ok(());
  }
}
