/** wallet_service.py: asset quanta and the fees taken on deposits and withdrawals. */
module WalletFees {
  import opened Rounding
  import opened Tables

  function Quantum(asset: Asset): real {
    match asset
    case BTC => 0.00000001
    case LTC => 0.00000001
    case ETH => 0.00000001
    case USDT => 0.000001
    case SOL => 0.000000001
  }

  function QuantizeAsset(asset: Asset, amount: real): real {
    RoundHalfUp(amount, Quantum(asset))
  }

  function PercentOf(asset: Asset, amount: real, pct: real): real {
    QuantizeAsset(asset, amount * pct / 100.0)
  }

  function DepositPlatformFee(cfg: Settings, asset: Asset, grossAmount: real): real {
    var fee := PercentOf(asset, grossAmount, cfg.depositPct);
    var gross := QuantizeAsset(asset, grossAmount);
    var floored := if fee < 0.0 then 0.0 else fee;
    if floored > gross then gross else floored
  }

  function DepositNetCredit(cfg: Settings, asset: Asset, grossAmount: real): real {
    var gross := QuantizeAsset(asset, grossAmount);
    var net := gross - DepositPlatformFee(cfg, asset, gross);
    QuantizeAsset(asset, if net < 0.0 then 0.0 else net)
  }

  function WithdrawalPlatformFee(cfg: Settings, asset: Asset, amount: real): real {
    var fee := PercentOf(asset, amount, cfg.withdrawalPct);
    if fee < 0.0 then 0.0 else fee
  }

  function WithdrawalNetworkFee(cfg: Settings, asset: Asset): real {
    QuantizeAsset(asset, if cfg.networkFee(asset) < 0.0 then 0.0 else cfg.networkFee(asset))
  }

  function WithdrawalTotalDebit(cfg: Settings, asset: Asset, amount: real): real {
    QuantizeAsset(asset, amount + WithdrawalPlatformFee(cfg, asset, amount) + WithdrawalNetworkFee(cfg, asset))
  }

  ghost predicate Exact(asset: Asset, amount: real) {
    OnGrid(amount, Quantum(asset))
  }

  lemma QuantizeWithin(asset: Asset, amount: real)
    ensures Exact(asset, QuantizeAsset(asset, amount))
    ensures -Quantum(asset) / 2.0 <= QuantizeAsset(asset, amount) - amount <= Quantum(asset) / 2.0
    ensures amount >= 0.0 ==> QuantizeAsset(asset, amount) >= 0.0
    ensures amount <= 0.0 ==> QuantizeAsset(asset, amount) <= 0.0
    ensures Exact(asset, 0.0)
  {
    RoundWithin(amount, Quantum(asset));
    GridSum(QuantizeAsset(asset, amount), QuantizeAsset(asset, amount), Quantum(asset));
  }

  lemma PercentExact(asset: Asset, amount: real, pct: real)
    ensures Exact(asset, PercentOf(asset, amount, pct)) && Exact(asset, 0.0)
  {
    QuantizeWithin(asset, amount * pct / 100.0);
  }

  lemma QuantizeExact(asset: Asset, amount: real)
    requires Exact(asset, amount)
    ensures QuantizeAsset(asset, amount) == amount
  {
    RoundOnGrid(amount, Quantum(asset));
  }

  lemma ExactSum(asset: Asset, a: real, b: real)
    requires Exact(asset, a) && Exact(asset, b)
    ensures Exact(asset, a + b) && Exact(asset, a - b)
  {
    GridSum(a, b, Quantum(asset));
  }

  /** Whatever percentage is configured, fee and net split the quantized gross amount exactly. */
  lemma DepositSplit(cfg: Settings, asset: Asset, amount: real)
    ensures var gross := QuantizeAsset(asset, amount);
            var fee, net := DepositPlatformFee(cfg, asset, gross), DepositNetCredit(cfg, asset, gross);
            && net + fee == gross && net >= 0.0
            && (gross >= 0.0 ==> 0.0 <= fee <= gross)
            && (gross < 0.0 ==> fee == gross && net == 0.0)
  {
    hide QuantizeAsset;
    var gross := QuantizeAsset(asset, amount);
    QuantizeWithin(asset, amount);
    QuantizeExact(asset, gross);
    var fee := DepositPlatformFee(cfg, asset, gross);
    PercentExact(asset, gross, cfg.depositPct);
    ExactSum(asset, gross, fee);
    QuantizeExact(asset, gross - fee);
  }

  /** Rounding a sum moves it by at most half a quantum, and not at all exactly when the amount is on the grid. */
  lemma RoundedSum(asset: Asset, amount: real, fees: real)
    requires Exact(asset, fees)
    ensures var total := QuantizeAsset(asset, amount + fees);
            && -Quantum(asset) / 2.0 <= total - (amount + fees) <= Quantum(asset) / 2.0
            && (total == amount + fees <==> Exact(asset, amount))
  {
    hide QuantizeAsset;
    var total := QuantizeAsset(asset, amount + fees);
    QuantizeWithin(asset, amount + fees);
    if Exact(asset, amount) {
      ExactSum(asset, amount, fees);
      QuantizeExact(asset, amount + fees);
    }
    if total == amount + fees {
      ExactSum(asset, total, fees);
      assert amount == total - fees;
    }
  }

  /** The reserve covers amount and fees to within half a quantum, exactly when the amount is on the grid. */
  lemma TotalDebitWithin(cfg: Settings, asset: Asset, amount: real)
    requires amount > 0.0
    ensures var fee, network, total := WithdrawalPlatformFee(cfg, asset, amount), WithdrawalNetworkFee(cfg, asset),
                                       WithdrawalTotalDebit(cfg, asset, amount);
            && fee >= 0.0 && network >= 0.0 && total >= 0.0
            && Exact(asset, fee) && Exact(asset, network) && Exact(asset, total)
            && -Quantum(asset) / 2.0 <= total - (amount + fee + network) <= Quantum(asset) / 2.0
            && (total == amount + fee + network <==> Exact(asset, amount))
  {
    hide QuantizeAsset;
    var fee, network := WithdrawalPlatformFee(cfg, asset, amount), WithdrawalNetworkFee(cfg, asset);
    var total := WithdrawalTotalDebit(cfg, asset, amount);
    PercentExact(asset, amount, cfg.withdrawalPct);
    QuantizeWithin(asset, if cfg.networkFee(asset) < 0.0 then 0.0 else cfg.networkFee(asset));
    QuantizeWithin(asset, amount + fee + network);
    ExactSum(asset, fee, network);
    assert amount + (fee + network) == amount + fee + network;
    RoundedSum(asset, amount, fee + network);
  }
}

/** wallet_service.py: idempotent deposit crediting. */
module Deposits {
  import opened Tables
  import opened WalletFees
  import LedgerService

  /** The stored row with this unique key, if there is one. */
  function Lookup(rows: seq<DepositRow>, key: string): (found: Option<nat>)
    ensures found.Some? ==> found.value < |rows| && rows[found.value].uniqueKey == key
    ensures found.None? ==> forall i :: 0 <= i < |rows| ==> rows[i].uniqueKey != key
  {
    if rows == [] then None
    else if rows[|rows| - 1].uniqueKey == key then Some(|rows| - 1)
    else Lookup(rows[..|rows| - 1], key)
  }

  function Max(a: int, b: int): int {
    if a < b then b else a
  }

  function CreditEntries(user: int, asset: Asset, net: real, fee: real, id: nat): seq<Entry> {
    (if net > 0.0 then [Entry(User(user), asset, net, DEPOSIT, DepositRef, id)] else []) +
    (if fee > 0.0 then [Entry(PlatformRevenue, asset, fee, DEPOSIT_PLATFORM_FEE, DepositRef, id)] else [])
  }

  /** The row a sighting of the key concerns: the stored one, or the one about to be appended. */
  function Target(rows: seq<DepositRow>, key: string): nat {
    var found := Lookup(rows, key);
    if found.Some? then found.value else |rows|
  }

  /** A row is credited by its first finalized sighting. */
  predicate Credits(rows: seq<DepositRow>, key: string, finalized: bool) {
    finalized && (Target(rows, key) < |rows| ==> rows[Target(rows, key)].status == Seen)
  }

  function SightedRow(cfg: Settings, rows: seq<DepositRow>, user: int, asset: Asset, amount: real, key: string,
                      confirmations: int, finalized: bool): DepositRow
  {
    var id := Target(rows, key);
    var gross := QuantizeAsset(asset, amount);
    var fee, net := DepositPlatformFee(cfg, asset, gross), DepositNetCredit(cfg, asset, gross);
    if id == |rows|
      then DepositRow(user, asset, gross, key, confirmations, if finalized then Credited else Seen, net, fee)
    else rows[id].(confirmations := Max(rows[id].confirmations, confirmations), amount := gross, creditedAmount := net,
                   platformFee := fee, status := if Credits(rows, key, finalized) then Credited else rows[id].status)
  }

  function Booked(cfg: Settings, rows: seq<DepositRow>, user: int, asset: Asset, amount: real, key: string,
                  finalized: bool): seq<Entry>
  {
    var gross := QuantizeAsset(asset, amount);
    if Credits(rows, key, finalized)
    then CreditEntries(user, asset, DepositNetCredit(cfg, asset, gross), DepositPlatformFee(cfg, asset, gross),
                       Target(rows, key))
    else []
  }

  function Put(rows: seq<DepositRow>, id: nat, row: DepositRow): seq<DepositRow>
    requires id <= |rows|
  {
    if id < |rows| then rows[id := row] else rows + [row]
  }

  /** The tables after one sighting of a deposit; Credits says whether this sighting credited it. */
  function AfterCredit(cfg: Settings, s: Snapshot, user: int, asset: Asset, amount: real, key: string,
                       confirmations: int, finalized: bool): Snapshot
  {
    s.(deposits := Put(s.deposits, Target(s.deposits, key),
                       SightedRow(cfg, s.deposits, user, asset, amount, key, confirmations, finalized)),
       ledger := s.ledger + Booked(cfg, s.deposits, user, asset, amount, key, finalized))
  }

  method CreditDepositIfConfirmed(db: Database, cfg: Settings, user: int, asset: Asset, amount: real, key: string,
                                  confirmations: int, finalized: bool) returns (credited: bool)
    modifies db
    ensures db.Now() == AfterCredit(cfg, old(db.Now()), user, asset, amount, key, confirmations, finalized)
    ensures credited == Credits(old(db.deposits), key, finalized)
  {
    hide QuantizeAsset, DepositPlatformFee, DepositNetCredit;
    var gross := QuantizeAsset(asset, amount);
    var fee := DepositPlatformFee(cfg, asset, gross);
    var net := DepositNetCredit(cfg, asset, gross);
    var found := Lookup(db.deposits, key);
    var id: nat;
    if found.None? {
      id := |db.deposits|;
      db.deposits := db.deposits +
        [DepositRow(user, asset, gross, key, confirmations, if finalized then Credited else Seen, net, fee)];
      credited := finalized;
    } else {
      id := found.value;
      var row := db.deposits[id];
      credited := row.status != Credited && finalized;
      if credited {
        row := row.(status := Credited);
      }
      db.deposits := db.deposits[id := row.(confirmations := Max(row.confirmations, confirmations), amount := gross,
                                            creditedAmount := net, platformFee := fee)];
    }
    if credited {
      if net > 0.0 {
        LedgerService.AddEntry(db, User(user), asset, net, DEPOSIT, DepositRef, id);
      }
      if fee > 0.0 {
        LedgerService.AddEntry(db, PlatformRevenue, asset, fee, DEPOSIT_PLATFORM_FEE, DepositRef, id);
      }
    }
    assert db.ledger == old(db.ledger) + Booked(cfg, old(db.deposits), user, asset, amount, key, finalized);
  }
}
