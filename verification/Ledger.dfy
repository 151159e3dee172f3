/** ledger_service.py: balances are never stored, they are sums over the append-only ledger. */
module LedgerService {
  import opened Tables

  /** The sums the services and the theorems ask for. */
  datatype Query =
    | OfUser(id: int, asset: Asset)
    | OfUserChecked(id: int, asset: Asset)   // all but the unchecked network-fee adjustments
    | OfUserOverage(id: int, asset: Asset)   // only those adjustments
    | OfAccount(account: Account, asset: Asset)
    | OfRow(refType: RefType, refId: nat)
    | OfRowType(refType: RefType, refId: nat, entryType: EntryType)
    | OfAccountRowType(account: Account, refType: RefType, refId: nat, entryType: EntryType)
    | OfAsset(asset: Asset)
    | OfTable(asset: Asset, refType: RefType, below: nat)
    | OfDeposits(payee: Payee, asset: Asset)

  predicate Selects(q: Query, e: Entry) {
    match q
    case OfUser(id, asset) => e.account == User(id) && e.asset == asset
    case OfUserChecked(id, asset) =>
      e.account == User(id) && e.asset == asset && e.entryType != WITHDRAWAL_NETWORK_FEE_ADJUSTMENT
    case OfUserOverage(id, asset) =>
      e.account == User(id) && e.asset == asset && e.entryType == WITHDRAWAL_NETWORK_FEE_ADJUSTMENT
    case OfAccount(account, asset) => e.account == account && e.asset == asset
    case OfRow(refType, refId) => e.refType == refType && e.refId == refId
    case OfRowType(refType, refId, entryType) => e.refType == refType && e.refId == refId && e.entryType == entryType
    case OfAccountRowType(account, refType, refId, entryType) =>
      e.account == account && e.refType == refType && e.refId == refId && e.entryType == entryType
    case OfAsset(asset) => e.asset == asset
    case OfTable(asset, refType, below) => e.asset == asset && e.refType == refType && e.refId < below
    case OfDeposits(payee, asset) =>
      (payee.Everyone? || payee == One(e.account)) && e.asset == asset && e.refType == DepositRef
  }

  function Picked(q: Query, e: Entry): real {
    if Selects(q, e) then e.amount else 0.0
  }

  function Sum(q: Query, entries: seq<Entry>): real {
    if entries == [] then 0.0 else Sum(q, entries[..|entries| - 1]) + Picked(q, entries[|entries| - 1])
  }

  function Balance(s: Snapshot, user: int, asset: Asset): real {
    Sum(OfUser(user, asset), s.ledger)
  }

  function Count(q: Query, entries: seq<Entry>): nat {
    if entries == [] then 0
    else Count(q, entries[..|entries| - 1]) + if Selects(q, entries[|entries| - 1]) then 1 else 0
  }

  /** What open escrow locks hold of a user's asset, over the escrows below n. */
  function LockedInEscrows(locks: map<nat, LockRow>, user: int, asset: Asset, n: nat): real {
    if n == 0 then 0.0
    else LockedInEscrows(locks, user, asset, n - 1) + if n - 1 in locks then HeldBy(locks[n - 1], user, asset) else 0.0
  }

  function HeldBy(lock: LockRow, user: int, asset: Asset): real {
    if lock.user == user && lock.asset == asset && lock.status == Locked then lock.amount else 0.0
  }

  /** What withdrawals that are still pending hold of a user's asset. */
  function LockedInWithdrawals(rows: seq<WithdrawalRow>, user: int, asset: Asset): real {
    if rows == [] then 0.0
    else LockedInWithdrawals(rows[..|rows| - 1], user, asset) + PendingFor(rows[|rows| - 1], user, asset)
  }

  function PendingFor(row: WithdrawalRow, user: int, asset: Asset): real {
    if row.user == user && row.asset == asset && row.status == WPending
      then row.amount + row.platformFee + row.networkFee else 0.0
  }

  function Total(s: Snapshot, user: int, asset: Asset): real {
    Balance(s, user, asset) +
    (LockedInEscrows(s.locks, user, asset, |s.escrows|) + LockedInWithdrawals(s.withdrawals, user, asset))
  }

  predicate Exists(q: Query, entries: seq<Entry>) {
    exists i :: 0 <= i < |entries| && Selects(q, entries[i])
  }

  // ----- sums of ledgers

  lemma {:induction false} SumConcat(q: Query, a: seq<Entry>, b: seq<Entry>)
    ensures Sum(q, a + b) == Sum(q, a) + Sum(q, b)
  {
    if b == [] {
      assert a + b == a;
    } else {
      var n := |b| - 1;
      assert (a + b)[..|a| + n] == a + b[..n];
      SumConcat(q, a, b[..n]);
    }
  }

  lemma SumFew(q: Query, es: seq<Entry>)
    requires |es| <= 4
    ensures Sum(q, es) ==
            (if |es| > 0 then Picked(q, es[0]) else 0.0) + (if |es| > 1 then Picked(q, es[1]) else 0.0) +
            (if |es| > 2 then Picked(q, es[2]) else 0.0) + (if |es| > 3 then Picked(q, es[3]) else 0.0)
  {
    if |es| > 0 {
      SumFew(q, es[..|es| - 1]);
    }
  }

  lemma {:induction false} CountConcat(q: Query, a: seq<Entry>, b: seq<Entry>)
    ensures Count(q, a + b) == Count(q, a) + Count(q, b)
  {
    if b == [] {
      assert a + b == a;
    } else {
      var n := |b| - 1;
      assert (a + b)[..|a| + n] == a + b[..n];
      CountConcat(q, a, b[..n]);
    }
  }

  lemma {:induction false} CountNone(q: Query, es: seq<Entry>)
    ensures Count(q, es) == 0 <==> !Exists(q, es)
  {
    if es != [] {
      var n := |es| - 1;
      CountNone(q, es[..n]);
      assert forall i :: 0 <= i < n ==> es[..n][i] == es[i];
    }
  }

  /** Queries that split every entry between them split the sum. */
  lemma {:induction false} SumSplit(whole: Query, a: Query, b: Query, c: Query, es: seq<Entry>)
    requires forall i :: 0 <= i < |es| ==>
             Picked(whole, es[i]) == Picked(a, es[i]) + Picked(b, es[i]) + Picked(c, es[i])
    ensures Sum(whole, es) == Sum(a, es) + Sum(b, es) + Sum(c, es)
  {
    if es != [] {
      SumSplit(whole, a, b, c, es[..|es| - 1]);
    }
  }

  lemma {:induction false} SumNone(q: Query, es: seq<Entry>)
    requires !Exists(q, es)
    ensures Sum(q, es) == 0.0
  {
    if es != [] {
      SumNone(q, es[..|es| - 1]);
    }
  }

  lemma CountFew(q: Query, es: seq<Entry>)
    requires |es| <= 2
    ensures Count(q, es) ==
            (if |es| > 0 && Selects(q, es[0]) then 1 else 0) + (if |es| > 1 && Selects(q, es[1]) then 1 else 0)
  {
    if |es| > 0 {
      CountFew(q, es[..|es| - 1]);
    }
  }

  /** Entries all booked for one row leave every sum, count and existence question about other rows alone. */
  lemma OtherRowsKeep(l: seq<Entry>, es: seq<Entry>, refType: RefType, refId: nat)
    requires forall i :: 0 <= i < |es| ==> es[i].refType == refType && es[i].refId == refId
    ensures forall t: RefType, i: nat :: (t, i) != (refType, refId) ==> Sum(OfRow(t, i), l + es) == Sum(OfRow(t, i), l)
    ensures forall t: RefType, i: nat, k: EntryType :: (t, i) != (refType, refId) ==>
              Count(OfRowType(t, i, k), l + es) == Count(OfRowType(t, i, k), l)
    ensures forall a: Account, t: RefType, i: nat, k: EntryType :: (t, i) != (refType, refId) ==>
              Count(OfAccountRowType(a, t, i, k), l + es) == Count(OfAccountRowType(a, t, i, k), l)
  {
    forall t: RefType, i: nat | (t, i) != (refType, refId)
      ensures Sum(OfRow(t, i), l + es) == Sum(OfRow(t, i), l)
    {
      SumConcat(OfRow(t, i), l, es);
      SumNone(OfRow(t, i), es);
    }
    forall t: RefType, i: nat, k: EntryType | (t, i) != (refType, refId)
      ensures Count(OfRowType(t, i, k), l + es) == Count(OfRowType(t, i, k), l)
    {
      CountConcat(OfRowType(t, i, k), l, es);
      CountNone(OfRowType(t, i, k), es);
    }
    forall a: Account, t: RefType, i: nat, k: EntryType | (t, i) != (refType, refId)
      ensures Count(OfAccountRowType(a, t, i, k), l + es) == Count(OfAccountRowType(a, t, i, k), l)
    {
      CountConcat(OfAccountRowType(a, t, i, k), l, es);
      CountNone(OfAccountRowType(a, t, i, k), es);
    }
  }

  // ----- the service

  method AddEntry(db: Database, account: Account, asset: Asset, amount: real, entryType: EntryType,
                  refType: RefType, refId: nat)
    modifies db`ledger
    ensures db.ledger == old(db.ledger) + [Entry(account, asset, amount, entryType, refType, refId)]
  {
    db.ledger := db.ledger + [Entry(account, asset, amount, entryType, refType, refId)];
  }

  method AvailableBalance(db: Database, user: int, asset: Asset) returns (total: real)
    ensures total == Balance(db.Now(), user, asset)
  {
    total := 0.0;
    for i := 0 to |db.ledger|
      invariant total == Sum(OfUser(user, asset), db.ledger[..i])
    {
      var row := db.ledger[i];
      assert db.ledger[..i + 1][..i] == db.ledger[..i];
      if row.account == User(user) && row.asset == asset {
        total := total + row.amount;
      }
    }
    assert db.ledger[..|db.ledger|] == db.ledger;
  }

  method LockedBalance(db: Database, user: int, asset: Asset) returns (reserved: real)
    ensures reserved ==
            LockedInEscrows(db.locks, user, asset, |db.escrows|) + LockedInWithdrawals(db.withdrawals, user, asset)
  {
    reserved := 0.0;
    for e := 0 to |db.escrows|
      invariant reserved == LockedInEscrows(db.locks, user, asset, e)
    {
      if e in db.locks && db.locks[e].user == user && db.locks[e].asset == asset && db.locks[e].status == Locked {
        reserved := reserved + db.locks[e].amount;
      }
    }
    for i := 0 to |db.withdrawals|
      invariant reserved == LockedInEscrows(db.locks, user, asset, |db.escrows|) +
                LockedInWithdrawals(db.withdrawals[..i], user, asset)
    {
      var row := db.withdrawals[i];
      assert db.withdrawals[..i + 1][..i] == db.withdrawals[..i];
      if row.user == user && row.asset == asset && row.status == WPending {
        reserved := reserved + (row.amount + row.platformFee + row.networkFee);
      }
    }
    assert db.withdrawals[..|db.withdrawals|] == db.withdrawals;
  }

  method TotalBalance(db: Database, user: int, asset: Asset) returns (total: real)
    ensures total == Total(db.Now(), user, asset)
  {
    var available := AvailableBalance(db, user, asset);
    var reserved := LockedBalance(db, user, asset);
    return available + reserved;
  }
}
