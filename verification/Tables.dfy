/**
 The rows of the SQLite tables the services share, and the connection object every service updates.
 Ids are positions: rows of deposits, escrows, disputes and withdrawals are only ever appended.
 */
module Tables {

  datatype Asset = BTC | LTC | ETH | USDT | SOL

  datatype Error =
    | TenantNotFound | SelfDeal | BelowMinimum | BadDescription | BadFeePercent
    | InsufficientBalance | EscrowNotFound | WrongStatus | DuplicateLock | NotAllowed | LockMissing
    | NoOpenRequest | WithdrawalsDisabled | AmountNotPositive | BadAddress | Frozen
    | RateLimited | DailyLimit | WithdrawalNotFound | ProviderMismatch | BadMetadata | MalformedTxid

  datatype Result<+T> = Ok(value: T) | Err(error: Error) {
    predicate IsFailure() { Err? }

    function PropagateFailure<U>(): Result<U>
      requires Err?
    {
      Err(error)
    }

    function Extract(): T
      requires Ok?
    {
      value
    }
  }

  datatype Option<+T> = None | Some(value: T)

  /** Decimal text and prices come from the environment; here they are numbers. */
  datatype Settings = Settings(
    platformPct: real, depositPct: real, withdrawalPct: real, networkFee: Asset -> real,
    price: Asset -> real, fallbackPrice: Asset -> real,
    minWithdrawalUsd: real, dailyLimit: real, minInterval: int,
    withdrawalsEnabled: bool, moderators: set<int>,
    validAddress: (Asset, string) -> bool)

  datatype Account = User(id: int) | PlatformRevenue | BotOwnerRevenue(owner: int)

  /** Whose entries a sum is about. */
  datatype Payee = One(account: Account) | Everyone

  datatype EntryType =
    | DEPOSIT | DEPOSIT_PLATFORM_FEE
    | ESCROW_LOCK | ESCROW_UNLOCK | ESCROW_RELEASE | ADJUSTMENT | PLATFORM_FEE | BOT_FEE
    | WITHDRAWAL_RESERVE | WITHDRAWAL_RELEASE | WITHDRAWAL_PLATFORM_FEE
    | WITHDRAWAL_NETWORK_FEE | WITHDRAWAL_NETWORK_FEE_REFUND | WITHDRAWAL_NETWORK_FEE_ADJUSTMENT

  datatype RefType = DepositRef | EscrowRef | WithdrawalRef

  datatype Entry = Entry(account: Account, asset: Asset, amount: real, entryType: EntryType, refType: RefType,
                         refId: nat)

  datatype DepositStatus = Seen | Credited

  datatype DepositRow = DepositRow(
    user: int, asset: Asset, amount: real, uniqueKey: string, confirmations: int,
    status: DepositStatus, creditedAmount: real, platformFee: real)

  datatype EscrowStatus = Pending | Active | Completed | Cancelled | Disputed

  datatype EscrowRow = EscrowRow(botId: int, buyer: int, seller: int, asset: Asset, amount: real, status: EscrowStatus)

  datatype LockStatus = Locked | Released

  datatype LockRow = LockRow(user: int, asset: Asset, amount: real, status: LockStatus)

  datatype Resolution = ReleaseSeller | RefundBuyer | Split(sellerPercent: real)

  /** resolution is None while the dispute is open. */
  datatype DisputeRow = DisputeRow(escrowId: nat, openedBy: int, resolution: Option<Resolution>)

  datatype RequestStatus = Open | Accepted | Declined

  datatype CancelRequest = CancelRequest(requester: int, responder: int, status: RequestStatus)

  datatype WithdrawalStatus = WPending | Submitted | Broadcasted | Confirmed | Failed | SignerRetry

  /** providerRef is "" while the column is NULL; actualFee is None while it is NULL. */
  datatype WithdrawalRow = WithdrawalRow(
    user: int, asset: Asset, amount: real, platformFee: real, networkFee: real,
    actualFee: Option<real>, settled: bool, destination: string,
    status: WithdrawalStatus, txid: Option<string>, providerRef: string, key: string, createdAt: int)

  datatype Tenant = Tenant(owner: int, extraFeePct: real)

  /** Everything the services can read or change, as one value. */
  datatype Snapshot = Snapshot(
    ledger: seq<Entry>,
    deposits: seq<DepositRow>,
    escrows: seq<EscrowRow>,
    locks: map<nat, LockRow>,
    disputes: seq<DisputeRow>,
    requests: map<nat, CancelRequest>,
    withdrawals: seq<WithdrawalRow>,
    tenants: map<int, Tenant>,
    frozen: set<int>)

  const EMPTY := Snapshot([], [], [], map[], [], map[], [], map[], {})

  /** The sqlite3 connection: one field per table, updated in place by the services. */
  class Database {
    var ledger: seq<Entry>
    var deposits: seq<DepositRow>
    var escrows: seq<EscrowRow>
    var locks: map<nat, LockRow>
    var disputes: seq<DisputeRow>
    var requests: map<nat, CancelRequest>
    var withdrawals: seq<WithdrawalRow>
    var tenants: map<int, Tenant>
    var frozen: set<int>

    constructor ()
      ensures Now() == EMPTY
    {
      ledger, deposits, escrows, locks, disputes := [], [], [], map[], [];
      requests, withdrawals, tenants, frozen := map[], [], map[], {};
    }

    /** The current content of all tables; taken by BEGIN and SAVEPOINT. */
    function Now(): Snapshot
      reads this
    {
      Snapshot(ledger, deposits, escrows, locks, disputes, requests, withdrawals, tenants, frozen)
    }

    /** ROLLBACK and ROLLBACK TO SAVEPOINT. */
    method Rollback(s: Snapshot)
      modifies this
      ensures Now() == s
    {
      ledger, deposits, escrows, locks, disputes := s.ledger, s.deposits, s.escrows, s.locks, s.disputes;
      requests, withdrawals, tenants, frozen := s.requests, s.withdrawals, s.tenants, s.frozen;
    }
  }
}
